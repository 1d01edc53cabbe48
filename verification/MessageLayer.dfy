/** The message layer: send buffers, the receive queue with its front
    push-back, and the loop that turns queued pieces into messages
    (VASTnet/VASTnet.cpp, VASTnet/net_udp.cpp, VASTnet/net_udp_handler.cpp). */
module MessageLayer {
  import opened Options
  import opened OrderedKeys
  import opened Framing
  import opened Reassembly

  type Id = nat

  datatype Chunk = Chunk(from: Id, bytes: Bytes)

  // What the loop hands on: frames to processVASTMessage, disconnects to the
  // message queue, anything else to the socket queue.
  datatype Entry = Entry(from: Id, out: Output)

  function Lookup(halves: map<Id, Half>, s: Id): Option<Half> {
    if s in halves then Some(halves[s]) else None
  }

  function Store(halves: map<Id, Half>, s: Id, half: Option<Half>): map<Id, Half> {
    if half.Some? then halves[s := half.value] else halves - {s}
  }

  ghost predicate AllFine(halves: map<Id, Half>) {
    forall s :: s in halves ==> halves[s].Fine()
  }

  function TotalBytes(queue: seq<Chunk>): nat {
    if queue == [] then 0 else |queue[0].bytes| + TotalBytes(queue[1..])
  }

  function PushFront(from: Id, rest: Bytes, queue: seq<Chunk>): (r: seq<Chunk>)
    ensures TotalBytes(r) == |rest| + TotalBytes(queue)
  {
    if rest == [] then queue
    else
      assert ([Chunk(from, rest)] + queue)[1..] == queue;
      [Chunk(from, rest)] + queue
  }

  datatype Pass = Pass(halves: map<Id, Half>, entries: seq<Entry>, queue: seq<Chunk>)

  // One turn of the loop: take the first chunk, put back what it leaves.
  function Turn(p: Pass): (r: Pass)
    requires p.queue != [] && AllFine(p.halves)
    ensures AllFine(r.halves)
    ensures TotalBytes(r.queue) + |r.queue| < TotalBytes(p.queue) + |p.queue|
         || (TotalBytes(r.queue) < TotalBytes(p.queue) && |r.queue| == |p.queue|)
  {
    var c, rest := p.queue[0], p.queue[1..];
    if c.bytes == [] then
      Pass(p.halves, p.entries + [Entry(c.from, Gone)], rest)
    else
      var a := Absorb(Lookup(p.halves, c.from), c.bytes);
      Pass(Store(p.halves, c.from, a.half),
           if a.out.Some? then p.entries + [Entry(c.from, a.out.value)] else p.entries,
           PushFront(c.from, a.rest, rest))
  }

  /** The whole loop. */
  function Run(p: Pass): (r: Pass)
    requires AllFine(p.halves)
    ensures AllFine(r.halves) && r.queue == []
    decreases TotalBytes(p.queue) + |p.queue|
  {
    if p.queue == [] then p else Run(Turn(p))
  }

  // ---------------------------------------------------------------- one sender's view

  function Pieces(queue: seq<Chunk>, s: Id): seq<Bytes> {
    if queue == [] then []
    else if queue[0].from == s then [queue[0].bytes] + Pieces(queue[1..], s)
    else Pieces(queue[1..], s)
  }

  function OutputOf(entries: seq<Entry>, s: Id): seq<Output> {
    if entries == [] then []
    else
      var last := entries[|entries| - 1];
      var before := OutputOf(entries[..|entries| - 1], s);
      if last.from == s then before + [last.out] else before
  }

  // What a turn leaves of a sender's reassembly is what it would have been.
  ghost predicate Projects(p: Pass, r: Pass, s: Id)
    requires AllFine(p.halves) && AllFine(r.halves)
  {
    var now, next := Feed(Lookup(p.halves, s), Pieces(p.queue, s)),
                     Feed(Lookup(r.halves, s), Pieces(r.queue, s));
    now.half == next.half && OutputOf(p.entries, s) + now.out == OutputOf(r.entries, s) + next.out
  }

  // One output moved from what is to come to what has been.
  lemma {:induction false} ProjectsBy(p: Pass, r: Pass, s: Id, o: Option<Output>)
    requires AllFine(p.halves) && AllFine(r.halves)
    requires Feed(Lookup(p.halves, s), Pieces(p.queue, s)) == Emit(o, Feed(Lookup(r.halves, s), Pieces(r.queue, s)))
    requires OutputOf(r.entries, s) == OutputOf(p.entries, s) + if o.Some? then [o.value] else []
    ensures Projects(p, r, s)
  {
    EmitMoves(OutputOf(p.entries, s), o, Feed(Lookup(r.halves, s), Pieces(r.queue, s)));
  }

  lemma {:induction false} EmitMoves(before: seq<Output>, o: Option<Output>, next: Outcome)
    ensures Emit(o, next).half == next.half
    ensures before + Emit(o, next).out == (before + if o.Some? then [o.value] else []) + next.out
  {
  }

  lemma {:induction false} TurnOnSender(p: Pass, s: Id)
    requires p.queue != [] && AllFine(p.halves) && p.queue[0].from == s && p.queue[0].bytes != []
    ensures Projects(p, Turn(p), s)
  {
    var half, pieces := Lookup(p.halves, s), Pieces(p.queue, s);
    assert pieces[0] == p.queue[0].bytes && pieces[1..] == Pieces(p.queue[1..], s);
    FeedStep(half, pieces);
    ProjectsBy(p, Turn(p), s, Absorb(half, p.queue[0].bytes).out);
  }

  lemma {:induction false} TurnOnGone(p: Pass, s: Id)
    requires p.queue != [] && AllFine(p.halves) && p.queue[0].from == s && p.queue[0].bytes == []
    ensures Projects(p, Turn(p), s)
  {
    var pieces := Pieces(p.queue, s);
    assert pieces[0] == [] && pieces[1..] == Pieces(p.queue[1..], s);
    ProjectsBy(p, Turn(p), s, Some(Gone));
  }

  // A turn on sender s is a step of its own reassembly; others do not see it.
  lemma {:induction false} TurnProjects(p: Pass, s: Id)
    requires p.queue != [] && AllFine(p.halves)
    ensures Projects(p, Turn(p), s)
  {
    if p.queue[0].from != s {
    } else if p.queue[0].bytes == [] {
      TurnOnGone(p, s);
    } else {
      TurnOnSender(p, s);
    }
  }

  /** Senders do not disturb each other: for every interleaving, what the loop
      produces for one sender is what that sender's pieces alone produce. */
  lemma {:induction false} RunProjects(p: Pass, s: Id)
    requires AllFine(p.halves)
    ensures var alone := Feed(Lookup(p.halves, s), Pieces(p.queue, s));
            && Lookup(Run(p).halves, s) == alone.half
            && OutputOf(Run(p).entries, s) == OutputOf(p.entries, s) + alone.out
    decreases TotalBytes(p.queue) + |p.queue|
  {
    if p.queue != [] {
      TurnProjects(p, s);
      RunProjects(Turn(p), s);
    }
  }

  lemma TurnAppends(p: Pass, later: seq<Chunk>)
    requires p.queue != [] && AllFine(p.halves)
    ensures Turn(p.(queue := p.queue + later)) == Turn(p).(queue := Turn(p).queue + later)
  {
    assert (p.queue + later)[1..] == p.queue[1..] + later;
  }

  /** Calling the loop once for each batch of arrivals is calling it once for
      all of them. */
  lemma {:induction false} RunInBatches(p: Pass, later: seq<Chunk>)
    requires AllFine(p.halves)
    ensures Run(p.(queue := p.queue + later)) == Run(Run(p).(queue := later))
    decreases TotalBytes(p.queue) + |p.queue|
  {
    if p.queue == [] {
      assert p.queue + later == later;
    } else {
      TurnAppends(p, later);
      RunInBatches(Turn(p), later);
    }
  }

  /** Main result for the whole layer: from an empty state, whatever the
      interleaving of senders, a sender whose pieces are the start of a stream
      of frames has exactly its complete frames delivered, in order, provided
      each starts with more than a header's worth of bytes in one piece; and
      otherwise some of its bytes go to the sockets. */
  lemma {:induction false} ProcessDelivers(queue: seq<Chunk>, s: Id, fs: seq<Frame>)
    requires AllFit(fs) && Flatten(Pieces(queue, s)) <= Stream(fs)
    ensures var r := Run(Pass(map[], [], queue));
            && (NoRaw(OutputOf(r.entries, s)) <==> LongStarts(Pieces(queue, s), 0, fs))
            && (LongStarts(Pieces(queue, s), 0, fs) ==>
                  Splits(fs, Flatten(Pieces(queue, s)), Frames(OutputOf(r.entries, s)), Rest(Lookup(r.halves, s))))
  {
    RunProjects(Pass(map[], [], queue), s);
    assert OutputOf([], s) + Feed(None, Pieces(queue, s)).out == Feed(None, Pieces(queue, s)).out;
    ChunkingIndependence(Pieces(queue, s), fs);
  }

  // ---------------------------------------------------------------- datagrams

  datatype Datagram = Datagram(chunks: seq<Bytes>, overrun: bool)

  /** The pieces a datagram is split into before it is queued.  A frame that
      announces more bytes than the datagram has left would make the source's
      unsigned counter wrap; the model stops there and says so. */
  function SplitDatagram(d: Bytes): Datagram
    decreases |d|
  {
    if |d| <= HEADER_SIZE || !HeaderOf(d).IsVast() then Datagram([], false)
    else
      var n := HEADER_SIZE + HeaderOf(d).size;
      if n > |d| then Datagram([], true)
      else
        var r := SplitDatagram(d[n..]);
        Datagram([d[..n]] + r.chunks, r.overrun)
  }

  function Encodings(fs: seq<Frame>): (r: seq<Bytes>)
    ensures |r| == |fs|
    ensures forall i :: 0 <= i < |fs| ==> r[i] == Encode(fs[i])
  {
    if fs == [] then [] else [Encode(fs[0])] + Encodings(fs[1..])
  }

  ghost predicate NoneEmpty(fs: seq<Frame>) {
    forall i :: 0 <= i < |fs| ==> fs[i].payload != []
  }

  lemma {:induction false} SplitStream(fs: seq<Frame>)
    requires AllFit(fs) && NoneEmpty(fs)
    ensures SplitDatagram(Stream(fs)) == Datagram(Encodings(fs), false)
  {
    if fs != [] {
      var e, s := Encode(fs[0]), Stream(fs);
      assert s[..|e|] == e && s[|e|..] == Stream(fs[1..]);
      HeaderOfFrame(fs[0], s);
      SplitStream(fs[1..]);
    }
  }

  lemma {:induction false} FlattenEncodings(fs: seq<Frame>)
    ensures Flatten(Encodings(fs)) == Stream(fs)
  {
    if fs != [] {
      FlattenEncodings(fs[1..]);
    }
  }

  // Piece i ends where the bytes before it and its own run out.
  lemma {:induction false} EndOfPiece(pieces: seq<Bytes>, i: nat)
    requires i < |pieces| && forall k :: 0 <= k < |pieces| ==> pieces[k] != []
    ensures Total(pieces[..i]) < Total(pieces)
    ensures PieceEnd(pieces, Total(pieces[..i])) == Total(pieces[..i]) + |pieces[i]|
  {
    var piece, rest := pieces[0], pieces[1..];
    assert pieces == [piece] + rest;
    if i > 0 {
      EndOfPiece(rest, i - 1);
      assert pieces[..i] == [piece] + rest[..i - 1];
      assert ([piece] + rest[..i - 1])[1..] == rest[..i - 1];
    }
  }

  lemma {:induction false} StartsAreTotals(fs: seq<Frame>, i: nat)
    requires i < |fs|
    ensures StartOf(fs, i) == Total(Encodings(fs)[..i])
  {
    if i > 0 {
      var rest := fs[1..];
      StartsAreTotals(rest, i - 1);
      assert Encodings(fs)[..i][1..] == Encodings(rest)[..i - 1];
    }
  }

  lemma {:induction false} EndOfEncoding(fs: seq<Frame>, i: nat)
    requires i < |fs|
    ensures StartOf(fs, i) < Total(Encodings(fs))
    ensures PieceEnd(Encodings(fs), StartOf(fs, i)) == StartOf(fs, i) + |Encode(fs[i])|
  {
    StartsAreTotals(fs, i);
    EndOfPiece(Encodings(fs), i);
  }

  /** One piece for each frame is safe exactly when no message is empty. */
  lemma {:induction false} EncodingsLongStarts(fs: seq<Frame>)
    ensures LongStarts(Encodings(fs), 0, fs) <==> NoneEmpty(fs)
  {
    forall i | 0 <= i < |fs|
      ensures LongStart(Encodings(fs), 0 + StartOf(fs, i)) <==> fs[i].payload != []
    {
      EndOfEncoding(fs, i);
    }
  }

  /** Splitting a datagram first and queueing its pieces delivers the frames
      the datagram was built from, just as queueing it whole does. */
  lemma {:induction false} SplitThenFeed(fs: seq<Frame>)
    requires AllFit(fs) && NoneEmpty(fs)
    ensures !SplitDatagram(Stream(fs)).overrun
    ensures Frames(Feed(None, SplitDatagram(Stream(fs)).chunks).out) == fs
    ensures Frames(Feed(None, [Stream(fs)]).out) == fs
    ensures NoRaw(Feed(None, SplitDatagram(Stream(fs)).chunks).out) && NoRaw(Feed(None, [Stream(fs)]).out)
  {
    SplitStream(fs);
    FlattenEncodings(fs);
    EncodingsLongStarts(fs);
    ChunkingIndependence(Encodings(fs), fs);
    assert Flatten([Stream(fs)]) == Stream(fs);
    forall i | 0 <= i < |fs|
      ensures LongStart([Stream(fs)], 0 + StartOf(fs, i))
    {
      RoomAfterStart(fs, i);
    }
    ChunkingIndependence([Stream(fs)], fs);
  }

  lemma {:induction false} RoomAfterStart(fs: seq<Frame>, i: nat)
    requires i < |fs| && NoneEmpty(fs)
    ensures StartOf(fs, i) + HEADER_SIZE < |Stream(fs)|
  {
    if i > 0 {
      RoomAfterStart(fs[1..], i - 1);
    }
  }

  // A datagram: who sent it, and the frames it was built from.
  datatype Parcel = Parcel(from: Id, frames: seq<Frame>)

  function Queued(from: Id, chunks: seq<Bytes>): (r: seq<Chunk>)
    ensures |r| == |chunks| && forall i :: 0 <= i < |r| ==> r[i] == Chunk(from, chunks[i])
  {
    if chunks == [] then [] else [Chunk(from, chunks[0])] + Queued(from, chunks[1..])
  }

  lemma {:induction false} QueuedOneMore(from: Id, chunks: seq<Bytes>, c: Bytes)
    ensures Queued(from, chunks + [c]) == Queued(from, chunks) + [Chunk(from, c)]
  {
  }

  // What is queued when datagrams come in one after the other.
  function SplitQueue(parcels: seq<Parcel>): seq<Chunk> {
    if parcels == [] then []
    else Queued(parcels[0].from, SplitDatagram(Stream(parcels[0].frames)).chunks) + SplitQueue(parcels[1..])
  }

  // The frames a sender's datagrams were built from.
  function FramesFrom(parcels: seq<Parcel>, s: Id): seq<Frame> {
    if parcels == [] then []
    else (if parcels[0].from == s then parcels[0].frames else []) + FramesFrom(parcels[1..], s)
  }

  ghost predicate Wellbuilt(parcels: seq<Parcel>) {
    forall i :: 0 <= i < |parcels| ==> AllFit(parcels[i].frames) && NoneEmpty(parcels[i].frames)
  }

  lemma {:induction false} PiecesOfQueued(from: Id, chunks: seq<Bytes>, later: seq<Chunk>, s: Id)
    ensures Pieces(Queued(from, chunks) + later, s) == (if from == s then chunks else []) + Pieces(later, s)
  {
    var queue := Queued(from, chunks) + later;
    if chunks == [] {
      assert queue == later;
    } else {
      assert queue[1..] == Queued(from, chunks[1..]) + later;
      PiecesOfQueued(from, chunks[1..], later, s);
    }
  }

  lemma {:induction false} EncodingsJoin(a: seq<Frame>, b: seq<Frame>)
    ensures Encodings(a + b) == Encodings(a) + Encodings(b)
  {
  }

  lemma {:induction false} PiecesAreEncodings(parcels: seq<Parcel>, s: Id)
    requires Wellbuilt(parcels)
    ensures Pieces(SplitQueue(parcels), s) == Encodings(FramesFrom(parcels, s))
    ensures AllFit(FramesFrom(parcels, s)) && NoneEmpty(FramesFrom(parcels, s))
  {
    if parcels != [] {
      var p, rest := parcels[0], parcels[1..];
      PiecesAreEncodings(rest, s);
      SplitStream(p.frames);
      PiecesOfQueued(p.from, Encodings(p.frames), SplitQueue(rest), s);
      EncodingsJoin(if p.from == s then p.frames else [], FramesFrom(rest, s));
    }
  }

  /** Whatever datagrams come in from however many senders, built from whole
      frames that are not empty: split first, every sender's frames are delivered,
      all of them, in order, nothing leaks and nothing is left over. */
  lemma {:induction false} DatagramsAreDelivered(parcels: seq<Parcel>, s: Id)
    requires Wellbuilt(parcels)
    ensures var r := Run(Pass(map[], [], SplitQueue(parcels)));
            && NoRaw(OutputOf(r.entries, s)) && Frames(OutputOf(r.entries, s)) == FramesFrom(parcels, s)
            && s !in r.halves
  {
    var fs, p := FramesFrom(parcels, s), Pass(map[], [], SplitQueue(parcels));
    PiecesAreEncodings(parcels, s);
    EncodingsAlone(fs);
    EncodingsDelivered(p, s, fs, Feed(None, Encodings(fs)));
  }

  // One piece for each frame gives the frames back.
  lemma {:induction false} EncodingsAlone(fs: seq<Frame>)
    requires AllFit(fs) && NoneEmpty(fs)
    ensures var alone := Feed(None, Encodings(fs));
            NoRaw(alone.out) && Frames(alone.out) == fs && alone.half == None
  {
    FlattenEncodings(fs);
    EncodingsLongStarts(fs);
    ChunkingIndependence(Encodings(fs), fs);
  }

  lemma {:induction false} EncodingsDelivered(p: Pass, s: Id, fs: seq<Frame>, alone: Outcome)
    requires AllFine(p.halves) && Lookup(p.halves, s) == None && OutputOf(p.entries, s) == []
    requires alone == Feed(None, Pieces(p.queue, s)) && alone.half == None
    requires NoRaw(alone.out) && Frames(alone.out) == fs
    ensures var r := Run(p);
            NoRaw(OutputOf(r.entries, s)) && Frames(OutputOf(r.entries, s)) == fs && s !in r.halves
  {
    RunProjects(p, s);
    var r := Run(p);
    assert OutputOf(r.entries, s) == alone.out;
    assert Lookup(r.halves, s) == None;
  }

  lemma {:induction false} StreamSnoc(fs: seq<Frame>, f: Frame)
    ensures Stream(fs + [f]) == Stream(fs) + Encode(f)
  {
    if fs == [] {
      assert [f][1..] == [];
    } else {
      assert (fs + [f])[1..] == fs[1..] + [f];
      StreamSnoc(fs[1..], f);
    }
  }

  // The first n buffers of `keys` emptied, and what they held sent, if the
  // target's address is known.
  function FlushFirst(bufs: map<Id, Bytes>, known: set<Id>, keys: seq<Id>, n: nat)
      : (r: (map<Id, Bytes>, map<Id, Bytes>))
    requires n <= |keys| && forall i :: 0 <= i < |keys| ==> keys[i] in bufs
    ensures r.0.Keys == bufs.Keys
  {
    if n == 0 then (bufs, map[])
    else
      var (b, sent) := FlushFirst(bufs, known, keys, n - 1);
      var target := keys[n - 1];
      (b[target := []], if b[target] != [] && target in known then sent[target := b[target]] else sent)
  }

  lemma {:induction false} FlushNext(bufs: map<Id, Bytes>, known: set<Id>, keys: seq<Id>, n: nat, next: nat)
    requires n < |keys| && next == n + 1 && forall i :: 0 <= i < |keys| ==> keys[i] in bufs
    ensures var (b, sent) := FlushFirst(bufs, known, keys, n);
            var target := keys[n];
            FlushFirst(bufs, known, keys, next) ==
            (b[target := []], if b[target] != [] && target in known then sent[target := b[target]] else sent)
  {
  }

  lemma {:induction false} FlushFirstIsPointwise(bufs: map<Id, Bytes>, known: set<Id>, keys: seq<Id>, n: nat,
                                                 target: Id)
    requires n <= |keys| && Ascends(keys) && forall i :: 0 <= i < |keys| ==> keys[i] in bufs
    ensures var (b, sent) := FlushFirst(bufs, known, keys, n);
            if exists i :: 0 <= i < n && keys[i] == target then
              && b[target] == []
              && (target in sent <==> bufs[target] != [] && target in known)
              && (target in sent ==> sent[target] == bufs[target])
            else
              target !in sent && (target in bufs ==> b[target] == bufs[target])
  {
    if n > 0 {
      FlushFirstIsPointwise(bufs, known, keys, n - 1, target);
    }
  }

  function Flushed(bufs: map<Id, Bytes>, known: set<Id>): (map<Id, Bytes>, map<Id, Bytes>) {
    var keys := Ascending(bufs.Keys);
    FlushFirst(bufs, known, keys, |keys|)
  }

  /** A flush empties every buffer.  It sends exactly the nonempty ones of known
      targets, each in one piece; what an unknown target's buffer held is lost. */
  lemma FlushIsPointwise(bufs: map<Id, Bytes>, known: set<Id>, target: Id)
    ensures var (b, sent) := Flushed(bufs, known);
            && b.Keys == bufs.Keys
            && (target in b ==> b[target] == [])
            && (target in sent <==> target in bufs && bufs[target] != [] && target in known)
            && (target in sent ==> sent[target] == bufs[target])
  {
    var keys := Ascending(bufs.Keys);
    FlushFirstIsPointwise(bufs, known, keys, |keys|, target);
    assert target in keys <==> target in bufs;
  }

  // A frame behind what a buffer holds.
  function Buffered(bufs: map<Id, Bytes>, target: Id, f: Frame): map<Id, Bytes> {
    bufs[target := (if target in bufs then bufs[target] else []) + Encode(f)]
  }

  class VastNet {
    const self: Id
    var recvQueue: seq<Chunk>
    var halves: map<Id, Half>
    var entries: seq<Entry>            // everything handed on so far
    var sendbufTCP: map<Id, Bytes>
    var sendbufUDP: map<Id, Bytes>
    var addresses: set<Id>             // the hosts whose addresses are known

    ghost predicate Valid()
      reads this
    {
      AllFine(halves)
    }

    constructor (self: Id)
      ensures Valid() && this.self == self
      ensures recvQueue == [] && halves == map[] && entries == []
      ensures sendbufTCP == map[] && sendbufUDP == map[] && addresses == {}
    {
      this.self := self;
      recvQueue, halves, entries := [], map[], [];
      sendbufTCP, sendbufUDP, addresses := map[], map[], {};
    }

    /** Appends a frame to the target's buffer; a message to the host itself
        is handed on at once.  `size` is the message's own size. */
    method SendMessage(target: Id, f: Frame, size: nat, reliable: bool, active: bool, connected: bool)
      returns (queued: nat)
      modifies this`sendbufTCP, this`sendbufUDP, this`entries
      ensures entries == if active && target == self then old(entries) + [Entry(self, Got(f))] else old(entries)
      ensures var buffered := active && target != self && connected;
              && sendbufTCP == (if buffered && reliable then Buffered(old(sendbufTCP), target, f) else old(sendbufTCP))
              && sendbufUDP == (if buffered && !reliable then Buffered(old(sendbufUDP), target, f) else old(sendbufUDP))
              && queued == if active && target == self then size
                           else if buffered then |f.payload| % SIZE_RANGE else 0
    {
      if !active {
        return 0;
      }
      if target == self {
        entries := entries + [Entry(self, Got(f))];
        return size;
      }
      if !connected {
        return 0;
      }
      if reliable {
        sendbufTCP := AddTo(sendbufTCP, target, f);
      } else {
        sendbufUDP := AddTo(sendbufUDP, target, f);
      }
      return |f.payload| % SIZE_RANGE;
    }

    // The header first, then the message.
    static method AddTo(bufs: map<Id, Bytes>, target: Id, f: Frame) returns (r: map<Id, Bytes>)
      ensures r == Buffered(bufs, target, f)
    {
      r := bufs;
      if target !in r {
        r := r[target := []];
      }
      r := r[target := r[target] + HeaderBytes(f.kind, |f.payload| % SIZE_RANGE)];
      r := r[target := r[target] + f.payload];
      assert r[target] == (if target in bufs then bufs[target] else []) + Encode(f);
    }

    // The buffers of the given targets, in order.
    static method FlushTargets(bufs: map<Id, Bytes>, known: set<Id>, keys: seq<Id>)
      returns (left: map<Id, Bytes>, sent: map<Id, Bytes>)
      requires forall i :: 0 <= i < |keys| ==> keys[i] in bufs
      ensures (left, sent) == FlushFirst(bufs, known, keys, |keys|)
    {
      left, sent := bufs, map[];
      var i := 0;
      while i < |keys|
        invariant 0 <= i <= |keys| && left.Keys == bufs.Keys
        invariant (left, sent) == FlushFirst(bufs, known, keys, i)
      {
        var target := keys[i];
        var next := i + 1;
        FlushNext(bufs, known, keys, i, next);
        if left[target] != [] && target in known {
          sent := sent[target := left[target]];
        }
        left := left[target := []];
        i := next;
      }
    }

    static method FlushBuffers(bufs: map<Id, Bytes>, known: set<Id>)
      returns (left: map<Id, Bytes>, sent: map<Id, Bytes>)
      ensures (left, sent) == Flushed(bufs, known)
    {
      var keys := Ascending(bufs.Keys);
      assert forall i :: 0 <= i < |keys| ==> keys[i] in keys;
      left, sent := FlushTargets(bufs, known, keys);
    }

    /** Empties every buffer.  Reliable ones go out over their connections,
        unreliable ones to known addresses, each in one piece. */
    method Flush() returns (tcp: map<Id, Bytes>, udp: map<Id, Bytes>)
      modifies this`sendbufTCP, this`sendbufUDP
      ensures (sendbufTCP, tcp) == Flushed(old(sendbufTCP), old(sendbufTCP).Keys)
      ensures (sendbufUDP, udp) == Flushed(old(sendbufUDP), addresses)
    {
      sendbufTCP, tcp := FlushBuffers(sendbufTCP, sendbufTCP.Keys);
      sendbufUDP, udp := FlushBuffers(sendbufUDP, addresses);
    }

    method MsgReceived(from: Id, bytes: Bytes, inFront: bool)
      modifies this`recvQueue
      ensures recvQueue == if inFront then [Chunk(from, bytes)] + old(recvQueue)
                           else old(recvQueue) + [Chunk(from, bytes)]
    {
      if inFront {
        recvQueue := [Chunk(from, bytes)] + recvQueue;
      } else {
        recvQueue := recvQueue + [Chunk(from, bytes)];
      }
    }

    method Receive() returns (c: Option<Chunk>)
      modifies this`recvQueue
      ensures old(recvQueue) == [] ==> c == None && recvQueue == []
      ensures old(recvQueue) != [] ==> c == Some(old(recvQueue)[0]) && recvQueue == old(recvQueue)[1..]
    {
      if recvQueue == [] {
        return None;
      }
      c := Some(recvQueue[0]);
      recvQueue := recvQueue[1..];
    }

    // Adds to a half message what it still lacks, and puts the rest back.
    method Fill(c: Chunk, had: Half)
      requires Valid() && c.bytes != [] && Buffer(Lookup(halves, c.from), c.bytes) == Some(had)
      modifies this`recvQueue, this`halves, this`entries
      ensures var a := Absorb(Lookup(old(halves), c.from), c.bytes);
              && halves == Store(old(halves), c.from, a.half)
              && entries == old(entries) + (if a.out.Some? then [Entry(c.from, a.out.value)] else [])
              && recvQueue == PushFront(c.from, a.rest, old(recvQueue))
    {
      var toAdd := HEADER_SIZE + had.header.size - |had.buf|;
      if toAdd > |c.bytes| {
        toAdd := |c.bytes|;
      }
      var hq := Half(had.header, had.buf + c.bytes[..toAdd]);
      if |hq.buf| == HEADER_SIZE + hq.header.size {
        entries := entries + [Entry(c.from, Got(Frame(hq.header.kind, hq.buf[HEADER_SIZE..])))];
        halves := halves - {c.from};
      } else {
        halves := halves[c.from := hq];
      }
      if |c.bytes| > toAdd {
        MsgReceived(c.from, c.bytes[toAdd..], true);
      }
    }

    // One nonempty chunk.
    method TakeIn(c: Chunk)
      requires Valid() && c.bytes != []
      modifies this`recvQueue, this`halves, this`entries
      ensures Valid()
      ensures var a := Absorb(Lookup(old(halves), c.from), c.bytes);
              && halves == Store(old(halves), c.from, a.half)
              && entries == old(entries) + (if a.out.Some? then [Entry(c.from, a.out.value)] else [])
              && recvQueue == PushFront(c.from, a.rest, old(recvQueue))
    {
      if c.from in halves {
        Fill(c, halves[c.from]);
      } else if |c.bytes| > HEADER_SIZE && HeaderOf(c.bytes).IsVast() {
        Fill(c, Half(HeaderOf(c.bytes), []));
      } else {
        entries := entries + [Entry(c.from, Raw(c.bytes))];
        assert halves == halves - {c.from};
      }
    }

    /** Works the receive queue off. */
    method Process()
      requires Valid()
      modifies this`recvQueue, this`halves, this`entries
      ensures Valid()
      ensures Pass(halves, entries, recvQueue) == Run(Pass(old(halves), old(entries), old(recvQueue)))
    {
      while recvQueue != []
        invariant Valid()
        invariant Run(Pass(halves, entries, recvQueue)) == Run(Pass(old(halves), old(entries), old(recvQueue)))
        decreases TotalBytes(recvQueue) + |recvQueue|
      {
        ghost var before := Pass(halves, entries, recvQueue);
        var c := Receive();
        if c.value.bytes == [] {
          entries := entries + [Entry(c.value.from, Gone)];
        } else {
          TakeIn(c.value);
        }
        assert Pass(halves, entries, recvQueue) == Turn(before);
      }
    }

    /** Splits one datagram into frames and queues them. */
    method ProcessInput(d: Bytes, from: Id) returns (overrun: bool)
      modifies this`recvQueue
      ensures overrun == SplitDatagram(d).overrun
      ensures recvQueue == old(recvQueue) + Queued(from, SplitDatagram(d).chunks)
    {
      var rest := d;
      ghost var chunks: seq<Bytes> := [];
      while |rest| > HEADER_SIZE
        invariant recvQueue == old(recvQueue) + Queued(from, chunks)
        invariant SplitDatagram(d) == After(chunks, SplitDatagram(rest))
        decreases |rest|
      {
        var header := HeaderOf(rest);
        if !header.IsVast() {
          break;
        }
        var n := HEADER_SIZE + header.size;
        if n > |rest| {
          return true;
        }
        var piece := rest[..n];
        MsgReceived(from, piece, false);
        AfterOne(chunks, rest);
        QueuedOneMore(from, chunks, piece);
        chunks, rest := chunks + [piece], rest[n..];
      }
      return false;
    }
  }

  function After(chunks: seq<Bytes>, r: Datagram): (a: Datagram)
    ensures r.chunks == [] ==> a.chunks == chunks
  {
    Datagram(chunks + r.chunks, r.overrun)
  }

  lemma {:induction false} AfterOne(chunks: seq<Bytes>, rest: Bytes)
    requires |rest| > HEADER_SIZE && HeaderOf(rest).IsVast()
    requires HEADER_SIZE + HeaderOf(rest).size <= |rest|
    ensures var n := HEADER_SIZE + HeaderOf(rest).size;
            After(chunks, SplitDatagram(rest)) == After(chunks + [rest[..n]], SplitDatagram(rest[n..]))
  {
  }
}
