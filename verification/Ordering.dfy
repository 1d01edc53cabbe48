/** Eight-bit packet numbers (VASTnet/net_udpNC_handler.cpp, send_helper) and the
    receiver that keeps packets in order by them
    (VASTnet/net_udpnc_consumer.cpp, order_input). */
module Ordering {
  import opened Options

  type Id = nat

  const UNASSIGNED: Id := 0
  const LOWEST_RESET := 240
  const HIGHEST_ACCEPTED := 10

  type Number = n: nat | n < 256

  // A packet without a payload only synchronises the receiver.  `to` is the first
  // of its addresses, if it has any.
  datatype Packet = Packet(from: Id, to: Option<Id>, number: Number, size: nat)

  // Numbers wrap round.
  function Plus(n: Number, gap: nat): Number {
    (n + gap) % 256
  }

  // ---------------------------------------------------------------- sending

  // The next number for each destination.
  type Counters = map<Id, Number>

  function NextNumber(counters: Counters, to: Id): Number {
    if to in counters then counters[to] else 0
  }

  function Counted(counters: Counters, to: Id): Counters {
    counters[to := Plus(NextNumber(counters, to), 1)]
  }

  // A message to a destination; `keepalive` when a sync packet goes out first.
  datatype Request = Request(to: Id, size: nat, keepalive: bool)

  datatype Sent = Sent(counters: Counters, packets: seq<Packet>)

  function SendOne(s: Sent, from: Id, to: Id, size: nat): Sent {
    Sent(Counted(s.counters, to), s.packets + [Packet(from, Some(to), NextNumber(s.counters, to), size)])
  }

  function Send(s: Sent, from: Id, r: Request): Sent {
    SendOne(if r.keepalive then SendOne(s, from, r.to, 0) else s, from, r.to, r.size)
  }

  // Whether a keep-alive is to precede a message.
  predicate Due(lastKeepalive: nat, interval: nat, now: nat) {
    now > lastKeepalive + interval
  }

  function SendAll(from: Id, requests: seq<Request>): Sent {
    if requests == [] then Sent(map[], [])
    else Send(SendAll(from, requests[..|requests| - 1]), from, requests[|requests| - 1])
  }

  function PacketsTo(packets: seq<Packet>, to: Id): seq<Packet> {
    if packets == [] then []
    else PacketsTo(packets[..|packets| - 1], to)
         + if packets[|packets| - 1].to == Some(to) then [packets[|packets| - 1]] else []
  }

  // Packets to one destination are numbered from 0, round and round.
  ghost predicate Numbered(s: Sent, from: Id, to: Id) {
    var mine := PacketsTo(s.packets, to);
    && NextNumber(s.counters, to) == |mine| % 256
    && forall k :: 0 <= k < |mine| ==> mine[k].number == k % 256 && mine[k].from == from
  }

  lemma SendOneNumbers(s: Sent, from: Id, to: Id, size: nat, dest: Id)
    requires Numbered(s, from, dest)
    ensures Numbered(SendOne(s, from, to, size), from, dest)
  {
    var n := SendOne(s, from, to, size);
    assert n.packets[..|n.packets| - 1] == s.packets;
    var k := |PacketsTo(s.packets, dest)|;
    assert (k % 256 + 1) % 256 == (k + 1) % 256;
  }

  /** Whatever is sent to whom, keep-alives included, the k-th packet to a
      destination carries k modulo 256. */
  lemma {:induction false} KthPacketCarriesK(from: Id, requests: seq<Request>, dest: Id)
    ensures Numbered(SendAll(from, requests), from, dest)
  {
    if requests != [] {
      var before, r := requests[..|requests| - 1], requests[|requests| - 1];
      KthPacketCarriesK(from, before, dest);
      var s := SendAll(from, before);
      SendOneNumbers(s, from, r.to, 0, dest);
      SendOneNumbers(if r.keepalive then SendOne(s, from, r.to, 0) else s, from, r.to, r.size, dest);
    }
  }

  // ---------------------------------------------------------------- receiving

  // The last number from each sender.
  type Latest = map<Id, Number>

  predicate Wraps(last: Number, next: Number) {
    last >= LOWEST_RESET && next < HIGHEST_ACCEPTED
  }

  predicate Accepts(last: Number, next: Number) {
    Wraps(last, next) || last < next
  }

  predicate Used(latest: Latest, p: Packet) {
    p.size == 0 || p.from == UNASSIGNED || p.from !in latest || Accepts(latest[p.from], p.number)
  }

  // Whether the packet starts a new round of numbers (and empties the decoder's pool).
  predicate Resets(latest: Latest, p: Packet) {
    p.size != 0 && p.from != UNASSIGNED && p.from in latest && Wraps(latest[p.from], p.number)
  }

  function Order(latest: Latest, p: Packet): Latest {
    if Used(latest, p) then latest[p.from := p.number] else latest
  }

  // What the receiver remembers after the first n packets.
  function After(latest: Latest, ps: seq<Packet>, n: nat): Latest
    requires n <= |ps|
  {
    if n == 0 then latest else Order(After(latest, ps, n - 1), ps[n - 1])
  }

  // The packets handed on.
  function Handed(latest: Latest, ps: seq<Packet>, n: nat): seq<Packet>
    requires n <= |ps|
  {
    if n == 0 then []
    else Handed(latest, ps, n - 1) + if Used(After(latest, ps, n - 1), ps[n - 1]) then [ps[n - 1]] else []
  }

  /** A gap between packets is always accepted, wherever the numbers stand, if
      and only if it is at most ten. */
  lemma GapIsSafeIff(gap: nat)
    requires 1 <= gap < 256
    ensures (forall last: Number :: Accepts(last, Plus(last, gap))) <==> gap <= 10
  {
    if gap > 10 {
      assert Plus(255, gap) == gap - 1;
      assert !Accepts(255, Plus(255, gap));
    } else {
      forall last: Number
        ensures Accepts(last, Plus(last, gap))
      {
        assert Plus(last, gap) == if last + gap < 256 then last + gap else last + gap - 256;
      }
    }
  }

  // A packet that has arrived, with its place among those its sender sent here.
  datatype Arrival = Arrival(packet: Packet, place: nat)

  function PacketsOf(arrivals: seq<Arrival>): (ps: seq<Packet>)
    ensures |ps| == |arrivals| && forall i :: 0 <= i < |ps| ==> ps[i] == arrivals[i].packet
  {
    if arrivals == [] then []
    else PacketsOf(arrivals[..|arrivals| - 1]) + [arrivals[|arrivals| - 1].packet]
  }

  // j is the next arrival after i from the same sender.
  ghost predicate Follows(arrivals: seq<Arrival>, i: nat, j: nat) {
    && i < j < |arrivals| && arrivals[i].packet.from == arrivals[j].packet.from
    && forall k :: i < k < j ==> arrivals[k].packet.from != arrivals[j].packet.from
  }

  /** Arrivals keep each sender's sending order, and at most nine packets in a
      row are lost between two that arrive. */
  ghost predicate Steady(arrivals: seq<Arrival>) {
    && (forall i :: 0 <= i < |arrivals| ==> arrivals[i].packet.number == arrivals[i].place % 256)
    && forall i: nat, j: nat :: Follows(arrivals, i, j) ==> 1 <= arrivals[j].place - arrivals[i].place <= 10
  }

  // The last arrival from a sender among the first n.
  function LastFrom(arrivals: seq<Arrival>, from: Id, n: nat): (i: nat)
    requires n <= |arrivals|
    ensures i <= n
    ensures i < n ==> arrivals[i].packet.from == from && forall k :: i < k < n ==> arrivals[k].packet.from != from
    ensures i == n ==> forall k :: 0 <= k < n ==> arrivals[k].packet.from != from
  {
    if n == 0 then 0
    else if arrivals[n - 1].packet.from == from then n - 1
    else
      var i := LastFrom(arrivals, from, n - 1);
      if i == n - 1 then n else i
  }

  // What is remembered of a sender is its last arrival.
  ghost predicate Remembers(latest: Latest, arrivals: seq<Arrival>, n: nat, from: Id)
    requires n <= |arrivals|
  {
    var i := LastFrom(arrivals, from, n);
    if i < n then from in latest && latest[from] == arrivals[i].packet.number else from !in latest
  }

  lemma SteadyIsUsed(arrivals: seq<Arrival>, n: nat, latest: Latest)
    requires Steady(arrivals) && n < |arrivals| && Remembers(latest, arrivals, n, arrivals[n].packet.from)
    ensures Used(latest, arrivals[n].packet)
  {
    var from := arrivals[n].packet.from;
    var i := LastFrom(arrivals, from, n);
    if i < n {
      assert Follows(arrivals, i, n);
    }
  }

  lemma RemembersOneMore(arrivals: seq<Arrival>, n: nat, latest: Latest, from: Id)
    requires n < |arrivals| && Remembers(latest, arrivals, n, from)
    ensures Remembers(latest[arrivals[n].packet.from := arrivals[n].packet.number], arrivals, n + 1, from)
  {
  }

  // Everything so far has been handed on, and every sender is remembered.
  ghost predicate LostNothing(arrivals: seq<Arrival>, ps: seq<Packet>, n: nat)
    requires n <= |arrivals| == |ps|
  {
    Handed(map[], ps, n) == ps[..n] && forall from :: Remembers(After(map[], ps, n), arrivals, n, from)
  }

  lemma {:induction false} LosesNothingNext(arrivals: seq<Arrival>, ps: seq<Packet>, n: nat, next: nat)
    requires Steady(arrivals) && ps == PacketsOf(arrivals) && n < |arrivals| && next == n + 1
    requires LostNothing(arrivals, ps, n)
    ensures LostNothing(arrivals, ps, next)
  {
    var latest := After(map[], ps, n);
    assert Remembers(latest, arrivals, n, ps[n].from);
    SteadyIsUsed(arrivals, n, latest);
    assert After(map[], ps, next) == latest[ps[n].from := ps[n].number];
    assert ps[..next] == ps[..n] + [ps[n]];
    forall from
      ensures Remembers(After(map[], ps, next), arrivals, next, from)
    {
      RemembersOneMore(arrivals, n, latest, from);
    }
  }

  /** Then every packet is handed on, in order, from however many senders. */
  lemma {:induction false} GapsUpToTenLoseNothing(arrivals: seq<Arrival>, n: nat)
    requires Steady(arrivals) && n <= |arrivals|
    ensures LostNothing(arrivals, PacketsOf(arrivals), n)
  {
    if n > 0 {
      GapsUpToTenLoseNothing(arrivals, n - 1);
      LosesNothingNext(arrivals, PacketsOf(arrivals), n - 1, n);
    }
  }

  // The packets to a destination that arrive: those at the given places.
  function ArrivalsAt(mine: seq<Packet>, places: seq<nat>): (arrivals: seq<Arrival>)
    requires forall i :: 0 <= i < |places| ==> places[i] < |mine|
    ensures |arrivals| == |places|
    ensures forall i :: 0 <= i < |places| ==> arrivals[i] == Arrival(mine[places[i]], places[i])
  {
    if places == [] then []
    else
      var n := |places| - 1;
      ArrivalsAt(mine, places[..n]) + [Arrival(mine[places[n]], places[n])]
  }

  /** From end to end: of whatever is sent to a destination, if what arrives
      keeps its order and never skips more than nine packets, all of it is
      handed on. */
  lemma {:induction false} EndToEnd(from: Id, requests: seq<Request>, dest: Id, places: seq<nat>)
    requires forall i :: 0 <= i < |places| ==> places[i] < |PacketsTo(SendAll(from, requests).packets, dest)|
    requires forall i :: 0 <= i < |places| - 1 ==> places[i] < places[i + 1] <= places[i] + 10
    ensures var arrivals := ArrivalsAt(PacketsTo(SendAll(from, requests).packets, dest), places);
            Handed(map[], PacketsOf(arrivals), |places|) == PacketsOf(arrivals)
  {
    KthPacketCarriesK(from, requests, dest);
    var arrivals := ArrivalsAt(PacketsTo(SendAll(from, requests).packets, dest), places);
    forall i: nat, j: nat | Follows(arrivals, i, j)
      ensures 1 <= arrivals[j].place - arrivals[i].place <= 10
    {
      assert arrivals[i + 1].packet.from == from;
      assert j == i + 1;
    }
    GapsUpToTenLoseNothing(arrivals, |places|);
    var ps := PacketsOf(arrivals);
    assert ps[..|places|] == ps;
  }

  /** Without the limit of ten something is lost. */
  lemma ElevenApartIsLost(from: Id, to: Id, size: nat)
    requires from != UNASSIGNED && size > 0
    ensures var ps := [Packet(from, Some(to), 255, size), Packet(from, Some(to), 266 % 256, size)];
            Handed(map[], ps, 2) == ps[..1]
  {
    var ps := [Packet(from, Some(to), 255, size), Packet(from, Some(to), 266 % 256, size)];
    assert Handed(map[], ps, 1) == [ps[0]];
    assert After(map[], ps, 1) == map[from := 255];
  }

  // Between n and m no packet from a sender synchronises or starts a new round.
  ghost predicate Undisturbed(latest: Latest, ps: seq<Packet>, from: Id, n: nat, m: nat)
    requires m <= |ps|
  {
    forall k :: n <= k < m && ps[k].from == from ==> ps[k].size != 0 && !Resets(After(latest, ps, k), ps[k])
  }

  lemma {:induction false} NumbersRise(latest: Latest, ps: seq<Packet>, from: Id, n: nat, m: nat)
    requires from != UNASSIGNED && n <= m <= |ps| && Undisturbed(latest, ps, from, n, m)
    requires from in After(latest, ps, n)
    ensures from in After(latest, ps, m) && After(latest, ps, n)[from] <= After(latest, ps, m)[from]
    decreases m
  {
    if n < m {
      NumbersRise(latest, ps, from, n, m - 1);
    }
  }

  /** Between resets and without sync packets, the numbers handed on from a
      sender strictly increase: nothing is handed on twice or out of order. */
  lemma {:induction false} HandedOnRise(latest: Latest, ps: seq<Packet>, i: nat, j: nat)
    requires i < j < |ps| && ps[i].from == ps[j].from != UNASSIGNED
    requires Used(After(latest, ps, i), ps[i]) && Used(After(latest, ps, j), ps[j])
    requires Undisturbed(latest, ps, ps[i].from, i + 1, j + 1)
    ensures ps[i].number < ps[j].number
  {
    NumbersRise(latest, ps, ps[i].from, i + 1, j);
  }

  // ---------------------------------------------------------------- late packets

  // Whether a packet `back` places behind the last one is seen to be old.
  predicate SeenToBeOld(last: Number, back: nat) {
    back <= last && (last < LOWEST_RESET || last - back >= HIGHEST_ACCEPTED)
  }

  lemma LateIsRefusedIff(last: Number, back: nat)
    requires 1 <= back < 256
    ensures !Accepts(last, Plus(last, 256 - back)) <==> SeenToBeOld(last, back)
  {
    assert Plus(last, 256 - back) == if back <= last then last - back else last + 256 - back;
  }

  lemma {:induction false} HandedBefore(latest: Latest, ps: seq<Packet>, more: seq<Packet>, n: nat)
    requires n <= |ps|
    ensures After(latest, ps + more, n) == After(latest, ps, n)
    ensures Handed(latest, ps + more, n) == Handed(latest, ps, n)
  {
    if n > 0 {
      HandedBefore(latest, ps, more, n - 1);
    }
  }

  /** After any steady arrivals, a packet that comes up to 255 places late, or a
      second time, is handed on exactly when it is not seen to be old: when it is
      of the round before the present one, or opens the present one while that is
      about to close.  The receiver then goes on from the late packet. */
  lemma {:induction false} LateIsReplayedIff(arrivals: seq<Arrival>, p: Packet, back: nat)
    requires Steady(arrivals) && p.from != UNASSIGNED && p.size > 0 && 1 <= back < 256
    requires LastFrom(arrivals, p.from, |arrivals|) < |arrivals|
    requires var place := arrivals[LastFrom(arrivals, p.from, |arrivals|)].place;
             back <= place && p.number == (place - back) % 256
    ensures var n, last := |arrivals|, arrivals[LastFrom(arrivals, p.from, |arrivals|)].place % 256;
            var ps, seen := PacketsOf(arrivals), SeenToBeOld(last, back);
            && Handed(map[], ps + [p], n + 1) == ps + (if seen then [] else [p])
            && p.from in After(map[], ps + [p], n + 1)
            && After(map[], ps + [p], n + 1)[p.from] == if seen then last else p.number
  {
    var n, ps := |arrivals|, PacketsOf(arrivals);
    var place := arrivals[LastFrom(arrivals, p.from, n)].place;
    GapsUpToTenLoseNothing(arrivals, n);
    assert ps[..n] == ps;
    HandedBefore(map[], ps, [p], n);
    assert Remembers(After(map[], ps, n), arrivals, n, p.from);
    LateNumber(place, back);
    LateIsRefusedIff(place % 256, back);
  }

  lemma LateNumber(place: nat, back: nat)
    requires 1 <= back < 256 && back <= place
    ensures (place - back) % 256 == Plus(place % 256, 256 - back)
  {
  }

  // ---------------------------------------------------------------- the classes

  class Sender {
    const myId: Id
    var sendOrdering: Counters
    // When the last keep-alive went out, and how long until the next.
    var lastKeepalive: nat
    const interval: nat
    var packets: seq<Packet>

    function State(): Sent
      reads this
    {
      Sent(sendOrdering, packets)
    }

    constructor (myId: Id, interval: nat)
      ensures State() == Sent(map[], []) && this.myId == myId && this.interval == interval && lastKeepalive == 0
    {
      this.myId, this.interval := myId, interval;
      sendOrdering, lastKeepalive, packets := map[], 0, [];
    }

    method SendHelper(to: Id, size: nat)
      modifies `sendOrdering, `packets
      ensures State() == SendOne(old(State()), myId, to, size)
    {
      if to !in sendOrdering {
        sendOrdering := sendOrdering[to := 0];
      }
      var number := sendOrdering[to];
      sendOrdering := sendOrdering[to := Plus(sendOrdering[to], 1)];
      assert sendOrdering == Counted(old(sendOrdering), to);
      packets := packets + [Packet(myId, Some(to), number, size)];
    }

    method SendMessage(to: Id, size: nat, now: nat)
      modifies this
      ensures var keepalive := Due(old(lastKeepalive), interval, now);
              && State() == Send(old(State()), myId, Request(to, size, keepalive))
              && lastKeepalive == if keepalive then now else old(lastKeepalive)
    {
      if now > lastKeepalive + interval {
        SendHelper(to, 0);
        lastKeepalive := now;
      }
      SendHelper(to, size);
    }
  }

  class Consumer {
    const address: Id
    var recvdOrdering: Latest
    var handed: seq<Packet>
    var tooLate: nat
    var notForMe: nat
    var overheard: nat
    // How often the decoder's pool has been emptied.
    var poolsCleared: nat

    constructor (address: Id)
      ensures this.address == address && recvdOrdering == map[] && handed == []
      ensures tooLate == notForMe == overheard == poolsCleared == 0
    {
      this.address := address;
      recvdOrdering, handed := map[], [];
      tooLate, notForMe, overheard, poolsCleared := 0, 0, 0, 0;
    }

    method OrderInput(p: Packet)
      modifies this
      ensures recvdOrdering == Order(old(recvdOrdering), p)
      ensures handed == old(handed) + if Used(old(recvdOrdering), p) then [p] else []
      ensures tooLate == old(tooLate) + if Used(old(recvdOrdering), p) then 0 else 1
      ensures poolsCleared == old(poolsCleared) + if Resets(old(recvdOrdering), p) then 1 else 0
      ensures notForMe == old(notForMe) && overheard == old(overheard)
    {
      if p.size == 0 {
        recvdOrdering := recvdOrdering[p.from := p.number];
      } else if p.from == UNASSIGNED {
      } else if p.from !in recvdOrdering {
        recvdOrdering := recvdOrdering[p.from := p.number];
      } else if recvdOrdering[p.from] >= LOWEST_RESET && p.number < HIGHEST_ACCEPTED {
        recvdOrdering := recvdOrdering[p.from := 0];
        poolsCleared := poolsCleared + 1;
      } else if recvdOrdering[p.from] >= p.number {
        tooLate := tooLate + 1;
        return;
      }
      recvdOrdering := recvdOrdering[p.from := p.number];
      handed := handed + [p];
    }

    // Only packets addressed to this host count.  `unicast`: the packet came
    // from a socket address that is known.
    method FilterInput(p: Packet, unicast: bool)
      modifies this
      ensures if p.to == Some(address) then
                && recvdOrdering == Order(old(recvdOrdering), p)
                && handed == old(handed) + (if Used(old(recvdOrdering), p) then [p] else [])
              else
                recvdOrdering == old(recvdOrdering) && handed == old(handed)
      ensures var foreign := p.to.Some? && p.to.value != address;
              && notForMe == old(notForMe) + (if foreign && unicast then 1 else 0)
              && overheard == old(overheard) + (if foreign && !unicast then 1 else 0)
    {
      if p.to.Some? {
        if address == p.to.value {
          OrderInput(p);
        } else if unicast {
          notForMe := notForMe + 1;
        } else {
          overheard := overheard + 1;
        }
      }
    }
  }
}
