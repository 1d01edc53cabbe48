/** The message layer from end to end: what a host sends to another, through its
    buffers and flushes, is what the other's loop hands on. */
module MessageDelivery {
  import opened Options
  import opened Framing
  import opened Reassembly
  import opened MessageLayer

  // What a host does with its buffers.  A flush reaches the targets that are
  // known then; over connections, every target that has a buffer.
  datatype Deed =
    | Send(target: Id, frame: Frame)
    | FlushAll(known: set<Id>)

  function Held(bufs: map<Id, Bytes>, target: Id): Bytes {
    if target in bufs then bufs[target] else []
  }

  function Reached(reliable: bool, bufs: map<Id, Bytes>, known: set<Id>): set<Id> {
    if reliable then bufs.Keys else known
  }

  // A deed turns the buffers b into c and lets out what is in `out`.
  ghost predicate Does(reliable: bool, b: map<Id, Bytes>, deed: Deed, c: map<Id, Bytes>, out: map<Id, Bytes>) {
    match deed
    case Send(target, f) => c == Buffered(b, target, f) && out == map[]
    case FlushAll(known) => (c, out) == Flushed(b, Reached(reliable, b, known))
  }

  ghost predicate Works(reliable: bool, bufs: seq<map<Id, Bytes>>, deeds: seq<Deed>, outs: seq<map<Id, Bytes>>) {
    && |bufs| == |deeds| + 1 && |outs| == |deeds| && bufs[0] == map[]
    && forall i :: 0 <= i < |deeds| ==> Does(reliable, bufs[i], deeds[i], bufs[i + 1], outs[i])
  }

  // What has gone out to a target, flush by flush.
  function Flights(outs: seq<map<Id, Bytes>>, target: Id, n: nat): seq<Bytes>
    requires n <= |outs|
  {
    if n == 0 then []
    else Flights(outs, target, n - 1) + if target in outs[n - 1] then [outs[n - 1][target]] else []
  }

  // ---------------------------------------------------------------- what was meant to be sent

  function FrameTo(deed: Deed, target: Id): seq<Frame> {
    if deed.Send? && deed.target == target then [deed.frame] else []
  }

  function SentTo(deeds: seq<Deed>, target: Id, n: nat): seq<Frame>
    requires n <= |deeds|
  {
    if n == 0 then [] else SentTo(deeds, target, n - 1) + FrameTo(deeds[n - 1], target)
  }

  // The frames to a target since the last flush.
  function Since(deeds: seq<Deed>, target: Id, n: nat): seq<Frame>
    requires n <= |deeds|
  {
    if n == 0 || deeds[n - 1].FlushAll? then []
    else Since(deeds, target, n - 1) + FrameTo(deeds[n - 1], target)
  }

  // The batch a flush lets out: the frames since the one before, if it gets through.
  function Batch(reliable: bool, since: seq<Frame>, deed: Deed, target: Id): seq<seq<Frame>> {
    if deed.FlushAll? && since != [] && (reliable || target in deed.known) then [since] else []
  }

  function Batches(reliable: bool, deeds: seq<Deed>, target: Id, n: nat): seq<seq<Frame>>
    requires n <= |deeds|
  {
    if n == 0 then []
    else Batches(reliable, deeds, target, n - 1) + Batch(reliable, Since(deeds, target, n - 1), deeds[n - 1], target)
  }

  /** A frame to a target goes behind the frames its buffer holds already, and
      into no other buffer. */
  lemma {:induction false} GoesBehind(bufs: map<Id, Bytes>, target: Id, f: Frame, fs: seq<Frame>, other: Id)
    requires Held(bufs, target) == Stream(fs)
    ensures var b := Buffered(bufs, target, f);
            && b.Keys == bufs.Keys + {target}
            && b[target] == Stream(fs + [f])
            && (other != target ==> Held(b, other) == Held(bufs, other))
  {
    StreamSnoc(fs, f);
  }

  lemma {:induction false} EmptyStream(fs: seq<Frame>)
    ensures Stream(fs) == [] <==> fs == []
  {
  }

  lemma {:induction false} DeedHolds(reliable: bool, b: map<Id, Bytes>, deed: Deed, c: map<Id, Bytes>,
                                     out: map<Id, Bytes>, target: Id, since: seq<Frame>)
    requires Does(reliable, b, deed, c, out) && Held(b, target) == Stream(since)
    ensures Held(c, target) == if deed.FlushAll? then [] else Stream(since + FrameTo(deed, target))
    ensures target in out <==> Batch(reliable, since, deed, target) != []
    ensures target in out ==> out[target] == Stream(since)
  {
    match deed
    case Send(to, f) =>
      if to == target {
        GoesBehind(b, target, f, since, target);
      } else {
        assert since + [] == since;
      }
    case FlushAll(known) =>
      EmptyStream(since);
      FlushIsPointwise(b, Reached(reliable, b, known), target);
  }

  /** Whatever is sent and flushed, a buffer holds the frames since the last
      flush, in sending order. */
  lemma {:induction false} BufferHoldsSince(reliable: bool, bufs: seq<map<Id, Bytes>>, deeds: seq<Deed>,
                                            outs: seq<map<Id, Bytes>>, target: Id, n: nat)
    requires Works(reliable, bufs, deeds, outs) && n <= |deeds|
    ensures Held(bufs[n], target) == Stream(Since(deeds, target, n))
  {
    if n > 0 {
      var k := n - 1;
      BufferHoldsSince(reliable, bufs, deeds, outs, target, k);
      assert Does(reliable, bufs[k], deeds[k], bufs[k + 1], outs[k]);
      DeedHolds(reliable, bufs[k], deeds[k], bufs[n], outs[k], target, Since(deeds, target, k));
    }
  }

  // Each batch as one piece.
  function Streams(batches: seq<seq<Frame>>): (r: seq<Bytes>)
    ensures |r| == |batches| && forall i :: 0 <= i < |r| ==> r[i] == Stream(batches[i])
  {
    if batches == [] then [] else [Stream(batches[0])] + Streams(batches[1..])
  }

  lemma {:induction false} StreamsJoin(batches: seq<seq<Frame>>, more: seq<seq<Frame>>)
    ensures Streams(batches + more) == Streams(batches) + Streams(more)
  {
    if batches == [] {
      assert batches + more == more;
    } else {
      assert (batches + more)[1..] == batches[1..] + more;
      StreamsJoin(batches[1..], more);
    }
  }

  /** Each flush lets out, in one piece, exactly the frames since the flush
      before it, if there are any and the target is reached. */
  lemma {:induction false} FlightsAreBatches(reliable: bool, bufs: seq<map<Id, Bytes>>, deeds: seq<Deed>,
                                             outs: seq<map<Id, Bytes>>, target: Id, n: nat)
    requires Works(reliable, bufs, deeds, outs) && n <= |deeds|
    ensures Flights(outs, target, n) == Streams(Batches(reliable, deeds, target, n))
  {
    if n > 0 {
      var k := n - 1;
      FlightsAreBatches(reliable, bufs, deeds, outs, target, k);
      BufferHoldsSince(reliable, bufs, deeds, outs, target, k);
      assert Does(reliable, bufs[k], deeds[k], bufs[k + 1], outs[k]);
      var since := Since(deeds, target, k);
      DeedHolds(reliable, bufs[k], deeds[k], bufs[n], outs[k], target, since);
      StreamsJoin(Batches(reliable, deeds, target, k), Batch(reliable, since, deeds[k], target));
    }
  }

  // ---------------------------------------------------------------- over connections

  lemma {:induction false} FlattenSnoc(pieces: seq<Bytes>, piece: Bytes)
    ensures Flatten(pieces + [piece]) == Flatten(pieces) + piece
  {
    if pieces == [] {
      assert [piece][1..] == [];
    } else {
      assert (pieces + [piece])[1..] == pieces[1..] + [piece];
      FlattenSnoc(pieces[1..], piece);
    }
  }

  lemma {:induction false} StreamJoin(a: seq<Frame>, b: seq<Frame>)
    ensures Stream(a + b) == Stream(a) + Stream(b)
  {
    if a == [] {
      assert a + b == b;
    } else {
      assert (a + b)[1..] == a[1..] + b;
      StreamJoin(a[1..], b);
    }
  }

  lemma Regroup(sent: Bytes, out: Bytes, since: Bytes, more: Bytes)
    requires sent == out + since
    ensures sent + more == out + (since + more)
    ensures sent == out + since + []
  {
  }

  ghost predicate Balanced(sent: seq<Frame>, batches: seq<seq<Frame>>, since: seq<Frame>) {
    Stream(sent) == Flatten(Streams(batches)) + Stream(since)
  }

  lemma SendBalances(sent: seq<Frame>, batches: seq<seq<Frame>>, since: seq<Frame>, more: seq<Frame>)
    requires Balanced(sent, batches, since)
    ensures Balanced(sent + more, batches, since + more)
  {
    StreamJoin(sent, more);
    StreamJoin(since, more);
    Regroup(Stream(sent), Flatten(Streams(batches)), Stream(since), Stream(more));
  }

  lemma {:induction false} FlushMoves(sent: Bytes, pieces: seq<Bytes>, held: Bytes)
    requires sent == Flatten(pieces) + held
    ensures sent == Flatten(pieces + if held != [] then [held] else []) + []
  {
    if held != [] {
      FlattenSnoc(pieces, held);
    } else {
      assert pieces + [] == pieces;
    }
  }

  lemma FlushBalances(sent: seq<Frame>, batches: seq<seq<Frame>>, since: seq<Frame>, more: seq<seq<Frame>>)
    requires Balanced(sent, batches, since) && more == if since != [] then [since] else []
    ensures Balanced(sent, batches + more, [])
  {
    var held := Stream(since);
    EmptyStream(since);
    StreamsJoin(batches, more);
    assert Streams(more) == if held != [] then [held] else [];
    FlushMoves(Stream(sent), Streams(batches), held);
    assert Stream([]) == [];
  }

  lemma DeedBalances(sent: seq<Frame>, batches: seq<seq<Frame>>, since: seq<Frame>, deed: Deed, target: Id)
    requires Balanced(sent, batches, since)
    ensures Balanced(sent + FrameTo(deed, target), batches + Batch(true, since, deed, target),
                     if deed.FlushAll? then [] else since + FrameTo(deed, target))
  {
    if deed.FlushAll? {
      assert sent + [] == sent;
      FlushBalances(sent, batches, since, Batch(true, since, deed, target));
    } else {
      assert batches + [] == batches;
      SendBalances(sent, batches, since, FrameTo(deed, target));
    }
  }

  lemma {:induction false} OneMoreDeed(deeds: seq<Deed>, target: Id, k: nat, n: nat)
    requires k < |deeds| && n == k + 1
    ensures SentTo(deeds, target, n) == SentTo(deeds, target, k) + FrameTo(deeds[k], target)
    ensures Batches(true, deeds, target, n) ==
            Batches(true, deeds, target, k) + Batch(true, Since(deeds, target, k), deeds[k], target)
    ensures Since(deeds, target, n) ==
            if deeds[k].FlushAll? then [] else Since(deeds, target, k) + FrameTo(deeds[k], target)
  {
  }

  // What has gone out and what is still held make up what was sent.
  lemma {:induction false} BatchesMakeUp(deeds: seq<Deed>, target: Id, n: nat)
    requires n <= |deeds|
    ensures Balanced(SentTo(deeds, target, n), Batches(true, deeds, target, n), Since(deeds, target, n))
  {
    if n > 0 {
      var k := n - 1;
      BatchesMakeUp(deeds, target, k);
      OneMoreDeed(deeds, target, k, n);
      DeedBalances(SentTo(deeds, target, k), Batches(true, deeds, target, k), Since(deeds, target, k), deeds[k],
                   target);
    }
  }

  /** End to end over a connection: whatever one host sends to another and
      however it flushes, whatever pieces its bytes arrive in and however these
      are mixed with others', the frames that have wholly arrived come out, in
      sending order, provided each starts with more than a header's worth of
      bytes in one piece. */
  lemma {:induction false} ComesOutInOrder(bufs: seq<map<Id, Bytes>>, deeds: seq<Deed>, outs: seq<map<Id, Bytes>>,
                                           target: Id, queue: seq<Chunk>, from: Id)
    requires Works(true, bufs, deeds, outs) && AllFit(SentTo(deeds, target, |deeds|))
    requires Flatten(Pieces(queue, from)) <= Flatten(Flights(outs, target, |deeds|))
    requires LongStarts(Pieces(queue, from), 0, SentTo(deeds, target, |deeds|))
    ensures var r, fs, got := Run(Pass(map[], [], queue)), SentTo(deeds, target, |deeds|), Flatten(Pieces(queue, from));
            && NoRaw(OutputOf(r.entries, from))
            && Splits(fs, got, Frames(OutputOf(r.entries, from)), Rest(Lookup(r.halves, from)))
            && (Since(deeds, target, |deeds|) == [] && got == Flatten(Flights(outs, target, |deeds|)) ==>
                  Frames(OutputOf(r.entries, from)) == fs)
  {
    var n := |deeds|;
    var fs, got := SentTo(deeds, target, n), Flatten(Pieces(queue, from));
    FlightsAreBatches(true, bufs, deeds, outs, target, n);
    BatchesMakeUp(deeds, target, n);
    ProcessDelivers(queue, from, fs);
    if Since(deeds, target, n) == [] && got == Flatten(Flights(outs, target, n)) {
      var r := Run(Pass(map[], [], queue));
      AllFrames(fs, Frames(OutputOf(r.entries, from)), Rest(Lookup(r.halves, from)));
    }
  }

  // ---------------------------------------------------------------- in datagrams

  function Joined(batches: seq<seq<Frame>>): seq<Frame> {
    if batches == [] then [] else batches[0] + Joined(batches[1..])
  }

  // One datagram for each batch.
  function Parcels(from: Id, batches: seq<seq<Frame>>): seq<Parcel> {
    if batches == [] then [] else [Parcel(from, batches[0])] + Parcels(from, batches[1..])
  }

  lemma {:induction false} ParcelsAre(from: Id, batches: seq<seq<Frame>>)
    ensures |Parcels(from, batches)| == |batches|
    ensures forall i :: 0 <= i < |batches| ==> Parcels(from, batches)[i] == Parcel(from, batches[i])
    ensures FramesFrom(Parcels(from, batches), from) == Joined(batches)
  {
    if batches != [] {
      ParcelsAre(from, batches[1..]);
    }
  }

  // What the receiver queues when these pieces come in as datagrams.
  function QueueOf(from: Id, flights: seq<Bytes>): seq<Chunk> {
    if flights == [] then [] else Queued(from, SplitDatagram(flights[0]).chunks) + QueueOf(from, flights[1..])
  }

  lemma {:induction false} QueueOfParcels(from: Id, batches: seq<seq<Frame>>, flights: seq<Bytes>)
    requires |flights| == |batches| && forall i :: 0 <= i < |flights| ==> flights[i] == Stream(batches[i])
    ensures QueueOf(from, flights) == SplitQueue(Parcels(from, batches))
  {
    if batches != [] {
      QueueOfParcels(from, batches[1..], flights[1..]);
    }
  }

  ghost predicate Sound(fs: seq<Frame>) {
    AllFit(fs) && NoneEmpty(fs)
  }

  lemma SoundParts(a: seq<Frame>, b: seq<Frame>)
    ensures Sound(a + b) <==> Sound(a) && Sound(b)
  {
    assert forall i :: 0 <= i < |a| ==> (a + b)[i] == a[i];
    assert forall i :: 0 <= i < |b| ==> (a + b)[|a| + i] == b[i];
  }

  lemma {:induction false} BatchesAreSound(deeds: seq<Deed>, target: Id, n: nat)
    requires n <= |deeds| && Sound(SentTo(deeds, target, n))
    ensures Sound(Since(deeds, target, n))
    ensures forall batch :: batch in Batches(false, deeds, target, n) ==> Sound(batch)
  {
    if n > 0 {
      var before, more := SentTo(deeds, target, n - 1), FrameTo(deeds[n - 1], target);
      SoundParts(before, more);
      BatchesAreSound(deeds, target, n - 1);
      SoundParts(Since(deeds, target, n - 1), more);
    }
  }

  /** End to end in datagrams: of what a host sends to another, the batches that
      are flushed while the other's address is known come out, if they arrive in
      order, each frame in sending order; the others are lost. */
  lemma {:induction false} BatchesComeOut(bufs: seq<map<Id, Bytes>>, deeds: seq<Deed>, outs: seq<map<Id, Bytes>>,
                                          target: Id, from: Id)
    requires Works(false, bufs, deeds, outs)
    requires Sound(SentTo(deeds, target, |deeds|))
    ensures var r := Run(Pass(map[], [], QueueOf(from, Flights(outs, target, |deeds|))));
            && NoRaw(OutputOf(r.entries, from)) && from !in r.halves
            && Frames(OutputOf(r.entries, from)) == Joined(Batches(false, deeds, target, |deeds|))
  {
    var batches := Batches(false, deeds, target, |deeds|);
    FlightsAreBatches(false, bufs, deeds, outs, target, |deeds|);
    ParcelsAre(from, batches);
    QueueOfParcels(from, batches, Flights(outs, target, |deeds|));
    BatchesAreSound(deeds, target, |deeds|);
    assert forall i :: 0 <= i < |batches| ==> batches[i] in batches;
    DatagramsAreDelivered(Parcels(from, batches), from);
  }

  /** A datagram cut short inside a frame still yields the whole frames before
      the cut, and runs over exactly when more than the cut frame's header is
      left. */
  lemma {:induction false} CutDatagram(fs: seq<Frame>, part: Bytes, next: Frame)
    requires Sound(fs) && next.Fits() && part < Encode(next)
    ensures SplitDatagram(Stream(fs) + part) == Datagram(Encodings(fs), |part| > 4)
  {
    var d := Stream(fs) + part;
    if fs == [] {
      assert d == part;
      if |part| > 4 {
        HeaderOfFrame(next, part);
      }
    } else {
      var e := Encode(fs[0]);
      assert d == e + (Stream(fs[1..]) + part);
      assert d[..|e|] == e && d[|e|..] == Stream(fs[1..]) + part;
      HeaderOfFrame(fs[0], d);
      CutDatagram(fs[1..], part, next);
    }
  }
}
