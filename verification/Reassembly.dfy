/** Reassembly of one sender's frames from arbitrary pieces
    (VASTnet/VASTnet.cpp, process).

    A piece is what one receive call returned, or the unused end of one put
    back in front of the queue.  An empty piece announces a disconnect. */
module Reassembly {
  import opened Options
  import opened Framing

  datatype Half = Half(header: Header, buf: Bytes) {
    predicate Fine() {
      && HEADER_SIZE < |buf| < HEADER_SIZE + header.size
      && header.IsVast() && header == HeaderOf(buf)
    }

    function Owed(): int {
      HEADER_SIZE + header.size - |buf|
    }
  }

  ghost predicate HalfFine(half: Option<Half>) {
    half.Some? ==> half.value.Fine()
  }

  function Rest(half: Option<Half>): Bytes {
    if half.Some? then half.value.buf else []
  }

  function Owed(half: Option<Half>): int {
    if half.Some? then half.value.Owed() else 0
  }

  // What a piece produces: a whole frame, socket data, or a disconnect.
  datatype Output = Got(frame: Frame) | Raw(bytes: Bytes) | Gone

  datatype Absorbed = Absorbed(half: Option<Half>, out: Option<Output>, rest: Bytes)

  // The buffer a nonempty piece goes to: the sender's half message, or a new
  // one when the piece is longer than a header and starts with one.
  function Buffer(half: Option<Half>, piece: Bytes): Option<Half> {
    if half.Some? then half
    else if |piece| > HEADER_SIZE && HeaderOf(piece).IsVast() then Some(Half(HeaderOf(piece), []))
    else None
  }

  function Taken(hq: Half, piece: Bytes): int {
    if hq.Owed() > |piece| then |piece| else hq.Owed()
  }

  function Absorb(half: Option<Half>, piece: Bytes): (a: Absorbed)
    requires piece != [] && HalfFine(half)
    ensures HalfFine(a.half)
    ensures |a.rest| < |piece|
    ensures a.rest != [] ==> a.half.None?
  {
    var hq := Buffer(half, piece);
    if hq.None? then Absorbed(None, Some(Raw(piece)), [])
    else
      var n := Taken(hq.value, piece);
      var buf := hq.value.buf + piece[..n];
      if n == hq.value.Owed() then
        Absorbed(None, Some(Got(Frame(hq.value.header.kind, buf[HEADER_SIZE..]))), piece[n..])
      else
        Absorbed(Some(Half(hq.value.header, buf)), None, piece[n..])
  }

  lemma HeaderOfBuffer(half: Option<Half>, piece: Bytes)
    requires piece != [] && HalfFine(half) && Buffer(half, piece).Some?
    ensures var hq := Buffer(half, piece).value;
            var buf := hq.buf + piece[..Taken(hq, piece)];
            |buf| >= HEADER_SIZE && hq.header == HeaderOf(buf) && hq.header.IsVast()
  {
    var hq := Buffer(half, piece).value;
    var buf := hq.buf + piece[..Taken(hq, piece)];
    if half.Some? {
      assert hq.buf == buf[..|hq.buf|];
    } else {
      assert buf == piece[..Taken(hq, piece)];
    }
  }

  function Total(pieces: seq<Bytes>): nat {
    if pieces == [] then 0 else |pieces[0]| + Total(pieces[1..])
  }

  function Flatten(pieces: seq<Bytes>): (r: Bytes)
    ensures |r| == Total(pieces)
  {
    if pieces == [] then [] else pieces[0] + Flatten(pieces[1..])
  }

  function PutBack(rest: Bytes, pieces: seq<Bytes>): (r: seq<Bytes>)
    ensures Total(r) == |rest| + Total(pieces)
    ensures Flatten(r) == rest + Flatten(pieces)
  {
    if rest == [] then pieces
    else
      assert ([rest] + pieces)[1..] == pieces;
      [rest] + pieces
  }

  datatype Outcome = Outcome(half: Option<Half>, out: seq<Output>)

  function Emit(o: Option<Output>, r: Outcome): Outcome {
    if o.Some? then r.(out := [o.value] + r.out) else r
  }

  /** All pieces of one sender, in order, leftovers put back in front. */
  function Feed(half: Option<Half>, pieces: seq<Bytes>): (r: Outcome)
    requires HalfFine(half)
    ensures HalfFine(r.half)
    decreases Total(pieces) + |pieces|
  {
    if pieces == [] then Outcome(half, [])
    else if pieces[0] == [] then Emit(Some(Gone), Feed(half, pieces[1..]))
    else
      var a := Absorb(half, pieces[0]);
      Emit(a.out, Feed(a.half, PutBack(a.rest, pieces[1..])))
  }

  function Frames(out: seq<Output>): seq<Frame> {
    if out == [] then []
    else (if out[0].Got? then [out[0].frame] else []) + Frames(out[1..])
  }

  ghost predicate NoRaw(out: seq<Output>) {
    forall i :: 0 <= i < |out| ==> !out[i].Raw?
  }

  lemma EmitNoRaw(o: Option<Output>, r: Outcome)
    ensures NoRaw(Emit(o, r).out) <==> (o.Some? ==> !o.value.Raw?) && NoRaw(r.out)
    ensures Frames(Emit(o, r).out) ==
            (if o.Some? && o.value.Got? then [o.value.frame] else []) + Frames(r.out)
  {
    if o.Some? {
      var out := [o.value] + r.out;
      assert out[1..] == r.out;
      if NoRaw(out) {
        assert !out[0].Raw?;
        forall i | 0 <= i < |r.out|
          ensures !r.out[i].Raw?
        {
          assert !out[i + 1].Raw?;
        }
      }
    }
  }

  // A whole frame in front.
  lemma {:induction false} ParseOne(s: Bytes, buf: Bytes, tail: Bytes)
    requires s == buf + tail && HEADER_SIZE <= |buf| && HeaderOf(buf).IsVast()
    requires |buf| == HEADER_SIZE + HeaderOf(buf).size
    ensures Parse(s) == ([Frame(HeaderOf(buf).kind, buf[HEADER_SIZE..])] + Parse(tail).0, Parse(tail).1)
  {
    assert forall i :: 0 <= i < HEADER_SIZE ==> buf[i] == s[i];
    assert s[|buf|..] == tail;
    assert s[HEADER_SIZE..|buf|] == buf[HEADER_SIZE..];
  }

  // What one piece adds for the reference decoder.
  lemma {:induction false} AbsorbParses(half: Option<Half>, piece: Bytes, more: Bytes)
    requires HalfFine(half) && piece != [] && Buffer(half, piece).Some?
    ensures var a, s := Absorb(half, piece), Rest(half) + piece + more;
            if a.out.None? then s == Rest(a.half) + (a.rest + more)
            else
              && a.out.value.Got? && a.half.None?
              && Parse(s) == ([a.out.value.frame] + Parse(a.rest + more).0, Parse(a.rest + more).1)
  {
    var hq := Buffer(half, piece).value;
    var n := Taken(hq, piece);
    var buf := hq.buf + piece[..n];
    var s := Rest(half) + piece + more;
    HeaderOfBuffer(half, piece);
    assert s == buf + (piece[n..] + more);
    if n == hq.Owed() {
      ParseOne(s, buf, piece[n..] + more);
    }
  }

  lemma {:induction false} FeedStep(half: Option<Half>, pieces: seq<Bytes>)
    requires HalfFine(half) && pieces != [] && pieces[0] != []
    ensures var a := Absorb(half, pieces[0]);
            var next := Feed(a.half, PutBack(a.rest, pieces[1..]));
            && Feed(half, pieces) == Emit(a.out, next)
            && (NoRaw(Feed(half, pieces).out) <==> Buffer(half, pieces[0]).Some? && NoRaw(next.out))
  {
    var a := Absorb(half, pieces[0]);
    EmitNoRaw(a.out, Feed(a.half, PutBack(a.rest, pieces[1..])));
  }

  // A disconnect changes nothing here.
  lemma {:induction false} GoneStep(half: Option<Half>, pieces: seq<Bytes>)
    requires HalfFine(half) && pieces != [] && pieces[0] == []
    ensures Flatten(pieces) == Flatten(pieces[1..])
    ensures var r, next := Feed(half, pieces), Feed(half, pieces[1..]);
            r.half == next.half && Frames(r.out) == Frames(next.out) && (NoRaw(r.out) <==> NoRaw(next.out))
  {
    EmitNoRaw(Some(Gone), Feed(half, pieces[1..]));
  }

  /** Chunking does not matter: whatever the pieces, if none of them went to
      the sockets then the frames and the half message are those the reference
      decoder finds in the bytes run together. */
  lemma {:induction false} FeedIsParse(half: Option<Half>, pieces: seq<Bytes>)
    requires HalfFine(half) && NoRaw(Feed(half, pieces).out)
    ensures var r := Feed(half, pieces);
            Parse(Rest(half) + Flatten(pieces)) == (Frames(r.out), Rest(r.half))
    decreases Total(pieces) + |pieces|
  {
    if pieces == [] {
      assert Rest(half) + [] == Rest(half);
    } else if pieces[0] == [] {
      GoneStep(half, pieces);
      FeedIsParse(half, pieces[1..]);
    } else {
      var a := Absorb(half, pieces[0]);
      var rest := PutBack(a.rest, pieces[1..]);
      FeedStep(half, pieces);
      FeedIsParse(a.half, rest);
      PieceParses(half, pieces, a, rest, Feed(a.half, rest));
    }
  }

  // From what follows the first piece to all of it.
  lemma {:induction false} PieceParses(half: Option<Half>, pieces: seq<Bytes>, a: Absorbed, rest: seq<Bytes>,
                                       next: Outcome)
    requires HalfFine(half) && pieces != [] && pieces[0] != [] && Buffer(half, pieces[0]).Some?
    requires a == Absorb(half, pieces[0]) && rest == PutBack(a.rest, pieces[1..]) && next == Feed(a.half, rest)
    requires Parse(Rest(a.half) + Flatten(rest)) == (Frames(next.out), Rest(next.half))
    ensures var r := Feed(half, pieces);
            Parse(Rest(half) + Flatten(pieces)) == (Frames(r.out), Rest(r.half))
  {
    var first, more := pieces[0], Flatten(pieces[1..]);
    var r, whole := Feed(half, pieces), Flatten(pieces);
    assert r == Emit(a.out, next) by {
      FeedStep(half, pieces);
    }
    assert whole == first + more;
    assert Flatten(rest) == a.rest + more;
    EmitParses(half, first, more, next);
    AppendTwice(Rest(half), first, more);
  }

  lemma AppendTwice(a: Bytes, b: Bytes, c: Bytes)
    ensures a + (b + c) == a + b + c
  {
  }

  lemma {:induction false} EmitParses(half: Option<Half>, piece: Bytes, more: Bytes, next: Outcome)
    requires HalfFine(half) && piece != [] && Buffer(half, piece).Some?
    requires var a := Absorb(half, piece);
             Parse(Rest(a.half) + (a.rest + more)) == (Frames(next.out), Rest(next.half))
    ensures var r := Emit(Absorb(half, piece).out, next);
            Parse(Rest(half) + piece + more) == (Frames(r.out), Rest(r.half))
  {
    var a := Absorb(half, piece);
    EmitNoRaw(a.out, next);
    AbsorbParses(half, piece, more);
    if a.half.None? {
      assert [] + (a.rest + more) == a.rest + more;
    }
  }

  // Where frame i of a stream starts.
  function StartOf(fs: seq<Frame>, i: nat): nat
    requires i <= |fs|
  {
    if i == 0 then 0 else |Encode(fs[0])| + StartOf(fs[1..], i - 1)
  }

  // Where the piece that holds byte q ends.
  function PieceEnd(pieces: seq<Bytes>, q: nat): nat
    requires q < Total(pieces)
  {
    if q < |pieces[0]| then |pieces[0]| else |pieces[0]| + PieceEnd(pieces[1..], q - |pieces[0]|)
  }

  ghost predicate LongStart(pieces: seq<Bytes>, q: nat) {
    q < Total(pieces) ==> PieceEnd(pieces, q) > q + HEADER_SIZE
  }

  // Every frame that starts inside the pieces has more than a header's worth
  // of bytes in the piece it starts in.  `owed` bytes of an earlier frame
  // come first.
  ghost predicate LongStarts(pieces: seq<Bytes>, owed: nat, fs: seq<Frame>) {
    forall i :: 0 <= i < |fs| ==> LongStart(pieces, owed + StartOf(fs, i))
  }

  lemma ShiftStarts(pieces: seq<Bytes>, n: nat, owed: nat, fs: seq<Frame>)
    requires pieces != [] && n <= |pieces[0]| && n <= owed
    ensures LongStarts(pieces, owed, fs) <==>
            LongStarts(PutBack(pieces[0][n..], pieces[1..]), owed - n, fs)
  {
    forall i | 0 <= i < |fs|
      ensures LongStart(pieces, owed + StartOf(fs, i)) <==>
              LongStart(PutBack(pieces[0][n..], pieces[1..]), owed - n + StartOf(fs, i))
    {
    }
  }

  lemma GoneStarts(pieces: seq<Bytes>, rest: seq<Bytes>, owed: nat, fs: seq<Frame>)
    requires pieces != [] && pieces[0] == [] && rest == pieces[1..]
    ensures LongStarts(pieces, owed, fs) <==> LongStarts(rest, owed, fs)
  {
    ShiftStarts(pieces, 0, owed, fs);
  }

  lemma FirstStart(pieces: seq<Bytes>, fs: seq<Frame>)
    requires pieces != [] && pieces[0] != [] && fs != []
    ensures LongStarts(pieces, 0, fs) <==>
            |pieces[0]| > HEADER_SIZE && LongStarts(pieces, |Encode(fs[0])|, fs[1..])
  {
    assert LongStart(pieces, 0 + StartOf(fs, 0)) <==> |pieces[0]| > HEADER_SIZE;
    forall i | 0 < i < |fs|
      ensures StartOf(fs, i) == |Encode(fs[0])| + StartOf(fs[1..], i - 1)
    {
    }
    if LongStarts(pieces, 0, fs) {
      forall i | 0 <= i < |fs[1..]|
        ensures LongStart(pieces, |Encode(fs[0])| + StartOf(fs[1..], i))
      {
        assert LongStart(pieces, 0 + StartOf(fs, i + 1));
      }
    }
    if |pieces[0]| > HEADER_SIZE && LongStarts(pieces, |Encode(fs[0])|, fs[1..]) {
      forall i | 0 <= i < |fs|
        ensures LongStart(pieces, 0 + StartOf(fs, i))
      {
        if i > 0 {
          assert LongStart(pieces, |Encode(fs[0])| + StartOf(fs[1..], i - 1));
        }
      }
    }
  }

  /** Pieces cut from a well-formed stream never leak to the sockets exactly
      when every frame starts with more than a header's worth of bytes in one
      piece. */
  lemma {:induction false} NoRawIff(half: Option<Half>, pieces: seq<Bytes>, x: Bytes, fs: seq<Frame>)
    requires HalfFine(half) && AllFit(fs) && |x| == Owed(half)
    requires Flatten(pieces) <= x + Stream(fs)
    ensures NoRaw(Feed(half, pieces).out) <==> LongStarts(pieces, |x|, fs)
    decreases Total(pieces) + |pieces|, 2
  {
    if pieces == [] {
    } else if pieces[0] == [] {
      var rest := pieces[1..];
      GoneStep(half, pieces);
      GoneStarts(pieces, rest, |x|, fs);
      NoRawIff(half, rest, x, fs);
    } else if half.Some? {
      FeedStep(half, pieces);
      ContinueNoRaw(half, pieces, x, fs, half.value);
    } else {
      assert x == [] && x + Stream(fs) == Stream(fs);
      StartNoRaw(pieces, fs);
    }
  }

  // Nothing is owed: the first piece starts a frame.
  lemma {:induction false} StartNoRaw(pieces: seq<Bytes>, fs: seq<Frame>)
    requires AllFit(fs) && pieces != [] && pieces[0] != []
    requires Flatten(pieces) <= Stream(fs)
    ensures NoRaw(Feed(None, pieces).out) <==> LongStarts(pieces, 0, fs)
    decreases Total(pieces) + |pieces|, 1
  {
    assert fs != [];
    FeedStep(None, pieces);
    FirstStart(pieces, fs);
    if |pieces[0]| > HEADER_SIZE {
      var e, rest := Encode(fs[0]), fs[1..];
      StartsWithHeader(pieces, fs);
      assert Stream(fs) == e + Stream(rest);
      ContinueNoRaw(None, pieces, e, rest, Half(HeaderOf(pieces[0]), []));
    }
  }

  lemma {:induction false} StartsWithHeader(pieces: seq<Bytes>, fs: seq<Frame>)
    requires pieces != [] && |pieces[0]| > HEADER_SIZE && fs != [] && AllFit(fs)
    requires Flatten(pieces) <= Stream(fs)
    ensures HeaderOf(pieces[0]) == Header(10, fs[0].kind, |fs[0].payload|, 5)
  {
    var s := Flatten(pieces);
    var e := Encode(fs[0]);
    var p := pieces[0];
    assert forall i :: 0 <= i < HEADER_SIZE ==> p[i] == s[i] == Stream(fs)[i] == e[i];
    assert p[..HEADER_SIZE] == e[..HEADER_SIZE];
    HeaderOfFrame(fs[0], e[..HEADER_SIZE]);
  }

  lemma AbsorbOwes(half: Option<Half>, piece: Bytes, hq: Half)
    requires HalfFine(half) && piece != [] && Buffer(half, piece) == Some(hq)
    ensures var a, n := Absorb(half, piece), Taken(hq, piece);
            n <= hq.Owed() && n <= |piece| && a.rest == piece[n..] && Owed(a.half) == hq.Owed() - n
  {
  }

  lemma DropBoth(p: Bytes, more: Bytes, x: Bytes, s: Bytes, n: nat)
    requires n <= |p| && n <= |x| && p + more <= x + s
    ensures p[n..] + more <= x[n..] + s
  {
    assert (p + more)[n..] == p[n..] + more;
    assert (x + s)[n..] == x[n..] + s;
  }

  // One step of the induction: the buffer is known, x are the bytes it lacks.
  lemma {:induction false} ContinueNoRaw(half: Option<Half>, pieces: seq<Bytes>, x: Bytes, fs: seq<Frame>, hq: Half)
    requires HalfFine(half) && AllFit(fs) && pieces != [] && pieces[0] != []
    requires Buffer(half, pieces[0]) == Some(hq) && |x| == hq.Owed()
    requires Flatten(pieces) <= x + Stream(fs)
    ensures var a := Absorb(half, pieces[0]);
            NoRaw(Feed(a.half, PutBack(a.rest, pieces[1..])).out) <==> LongStarts(pieces, |x|, fs)
    decreases Total(pieces) + |pieces|, 0
  {
    var a := Absorb(half, pieces[0]);
    var n := Taken(hq, pieces[0]);
    AbsorbOwes(half, pieces[0], hq);
    DropBoth(pieces[0], Flatten(pieces[1..]), x, Stream(fs), n);
    ShiftStarts(pieces, n, |x|, fs);
    NoRawIff(a.half, PutBack(a.rest, pieces[1..]), x[n..], fs);
  }

  /** Main result.  For pieces that together are the start of a stream of
      frames: nothing leaks to the sockets exactly when every frame starts
      long enough, and then exactly the frames sent come out, in order, each
      as soon as its last byte is in. */
  lemma {:induction false} ChunkingIndependence(pieces: seq<Bytes>, fs: seq<Frame>)
    requires AllFit(fs) && Flatten(pieces) <= Stream(fs)
    ensures NoRaw(Feed(None, pieces).out) <==> LongStarts(pieces, 0, fs)
    ensures LongStarts(pieces, 0, fs) ==>
              var r := Feed(None, pieces);
              Splits(fs, Flatten(pieces), Frames(r.out), Rest(r.half))
    ensures LongStarts(pieces, 0, fs) && Flatten(pieces) == Stream(fs) ==>
              Frames(Feed(None, pieces).out) == fs && Feed(None, pieces).half.None?
  {
    assert [] + Stream(fs) == Stream(fs);
    NoRawIff(None, pieces, [], fs);
    if LongStarts(pieces, 0, fs) {
      FeedIsParse(None, pieces);
      assert Rest(None) + Flatten(pieces) == Flatten(pieces);
      ParsePrefix(fs, Flatten(pieces));
      if Flatten(pieces) == Stream(fs) {
        AllFrames(fs, Frames(Feed(None, pieces).out), Rest(Feed(None, pieces).half));
      }
    }
  }

  // A split of the whole stream is the whole list of frames.
  lemma {:induction false} AllFrames(fs: seq<Frame>, got: seq<Frame>, part: Bytes)
    requires AllFit(fs) && Splits(fs, Stream(fs), got, part)
    ensures got == fs && part == []
  {
    if got == [] {
      assert Stream(got) + part == part;
    } else {
      var e := Encode(fs[0]);
      assert Stream(fs)[|e|..] == Stream(fs[1..]);
      assert (Stream(got) + part)[|e|..] == Stream(got[1..]) + part;
      AllFrames(fs[1..], got[1..], part);
    }
  }

  // The reference decoder accounts for every byte.
  lemma {:induction false} ParseLength(s: Bytes)
    ensures |s| == |Stream(Parse(s).0)| + |Parse(s).1|
    decreases |s|
  {
    if |s| >= HEADER_SIZE {
      var h := HeaderOf(s);
      if h.IsVast() && |s| >= HEADER_SIZE + h.size {
        ParseLength(s[HEADER_SIZE + h.size..]);
        assert Parse(s).0[1..] == Parse(s[HEADER_SIZE + h.size..]).0;
      }
    }
  }

  /** What a sender says after a disconnect comes out as it was said if and only
      if no half message was left behind. */
  lemma {:induction false} DisconnectIsHarmlessIff(half: Option<Half>, pieces: seq<Bytes>, gs: seq<Frame>)
    requires HalfFine(half) && AllFit(gs) && Flatten(pieces) == Stream(gs) && LongStarts(pieces, 0, gs)
    ensures var r := Feed(half, [[]] + pieces);
            NoRaw(r.out) && Frames(r.out) == gs && r.half.None? <==> half.None?
  {
    assert ([[]] + pieces)[1..] == pieces;
    GoneStep(half, [[]] + pieces);
    var r := Feed(half, pieces);
    if half.None? {
      ChunkingIndependence(pieces, gs);
    } else if NoRaw(r.out) && Frames(r.out) == gs && r.half.None? {
      FeedIsParse(half, pieces);
      ParseLength(Rest(half) + Stream(gs));
    }
  }

  // The frame that bytes s make of a half message.
  function FilledUp(hq: Half, s: Bytes): Frame
    requires hq.Fine() && hq.Owed() <= |s|
  {
    Frame(hq.header.kind, (hq.buf + s[..hq.Owed()])[HEADER_SIZE..])
  }

  lemma FilledLater(hq: Half, p: Bytes, more: Bytes, next: Half)
    requires hq.Fine() && |p| < hq.Owed() <= |p| + |more| && next == Half(hq.header, hq.buf + p) && next.Fine()
    ensures next.Owed() <= |more| && FilledUp(next, more) == FilledUp(hq, p + more)
  {
    assert (p + more)[..hq.Owed()] == p + more[..next.Owed()];
    assert hq.buf + (p + more[..next.Owed()]) == next.buf + more[..next.Owed()];
  }

  lemma AbsorbFills(hq: Half, p: Bytes, more: Bytes)
    requires hq.Fine() && p != []
    ensures var a := Absorb(Some(hq), p);
            if hq.Owed() <= |p| then a.out == Some(Got(FilledUp(hq, p + more)))
            else a == Absorbed(Some(Half(hq.header, hq.buf + p)), None, [])
  {
    if hq.Owed() <= |p| {
      assert (p + more)[..hq.Owed()] == p[..hq.Owed()];
    } else {
      assert p[..|p|] == p;
    }
  }

  /** Whoever left a half message behind, its missing bytes are taken from what
      comes next, disconnects and new frames or not. */
  lemma {:induction false} HalfIsFilledUp(hq: Half, pieces: seq<Bytes>)
    requires hq.Fine() && hq.Owed() <= Total(pieces)
    ensures var frames := Frames(Feed(Some(hq), pieces).out);
            frames != [] && frames[0] == FilledUp(hq, Flatten(pieces))
    decreases |pieces|
  {
    var half, rest := Some(hq), pieces[1..];
    if pieces[0] == [] {
      GoneStep(half, pieces);
      HalfIsFilledUp(hq, rest);
    } else {
      var p, a := pieces[0], Absorb(half, pieces[0]);
      var next := Feed(a.half, PutBack(a.rest, rest));
      FeedStep(half, pieces);
      EmitNoRaw(a.out, next);
      AbsorbFills(hq, p, Flatten(rest));
      if hq.Owed() > |p| {
        HalfIsFilledUp(a.half.value, rest);
        FilledLater(hq, p, Flatten(rest), a.half.value);
      }
    }
  }

  /** A disconnect leaves the half message behind: what a reconnecting sender
      says first is glued to it, and a frame nobody sent comes out. */
  lemma ReconnectMixesFrames(f: Frame, g: Frame, n: nat)
    requires f.Fits() && g.Fits() && HEADER_SIZE < n < |Encode(f)|
    requires |Encode(g)| == |Encode(f)| - n
    ensures var r := Feed(None, [Encode(f)[..n], [], Encode(g)]);
            r.out == [Gone, Got(Frame(f.kind, Encode(f)[HEADER_SIZE..n] + Encode(g)))] && r.half.None?
  {
    var a, b := Encode(f)[..n], Encode(g);
    HeaderOfFrame(f, a);
    var half := Some(Half(HeaderOf(a), a));
    assert Absorb(None, a) == Absorbed(half, None, []) by {
      assert [] + a[..n] == a;
    }
    var none: seq<Bytes> := [];
    assert [a, [], b][1..] == [[], b] && [[], b][1..] == [b] && [b][1..] == none;
    assert Feed(None, [a, [], b]) == Feed(half, [[], b]);
    assert Absorb(half, b).out == Some(Got(Frame(f.kind, a[HEADER_SIZE..] + b))) by {
      assert b[..|b|] == b;
      assert (a + b)[HEADER_SIZE..] == a[HEADER_SIZE..] + b;
    }
    assert Feed(half, [b]) == Outcome(None, [Got(Frame(f.kind, a[HEADER_SIZE..] + b))]);
  }
}
