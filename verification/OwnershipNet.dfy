/** Many peers, one object: the hand-over protocol as a state machine.

    A state holds the clock, what each peer records about the object, and the
    transfer orders and acknowledgements still travelling.  Peers may hold any
    Voronoi view at any check: nothing below needs two peers to agree on the
    regions.  Message copies may be lost, repeated or overtaken. */
module OwnershipNet {
  import opened Options
  import opened Ownership

  datatype Net = Net(clock: Time, peers: map<Id, Slice>, transfers: multiset<Transfer>, acks: multiset<Ack>)

  datatype Step =
    | Advance(d: nat)
    | RunCheck(n: Id, v: View)
    | DeliverTransfer(n: Id, tr: Transfer, joined: bool, keep: bool)
    | DeliverAck(a: Ack, keep: bool)
    | InsertCopy(n: Id, isOwner: bool)
    | UpdateCopy(n: Id, owner: Option<bool>)
    | DeleteCopy(n: Id)
    | Departure(n: Id, from: Id)
    | Closest(n: Id, c: Id)
    | LoseTransfer(tr: Transfer)
    | LoseAck(a: Ack)

  predicate Enabled(net: Net, step: Step) {
    match step
    case Advance(_) => true
    case RunCheck(n, _) => n in net.peers && net.peers[n].obj.Some?
    case DeliverTransfer(n, tr, _, keep) => n in net.peers && tr in net.transfers
    case DeliverAck(a, _) => a in net.acks
    case InsertCopy(n, _) => n in net.peers
    case UpdateCopy(n, _) => n in net.peers
    case DeleteCopy(n) => n in net.peers
    case Departure(n, _) => n in net.peers
    case Closest(n, _) => n in net.peers
    case LoseTransfer(tr) => tr in net.transfers
    case LoseAck(a) => a in net.acks
  }

  function Sent<T>(bag: multiset<T>, m: Option<T>): multiset<T> {
    if m.Some? then bag + multiset{m.value} else bag
  }

  function Taken<T(==)>(bag: multiset<T>, m: T, keep: bool): multiset<T> {
    if keep then bag else bag - multiset{m}
  }

  // t is VSO_TIMEOUT_TRANSFER in clock units, o the object.
  function Next(t: Time, o: Id, net: Net, step: Step): Net
    requires Enabled(net, step)
  {
    match step
    case Advance(d) => net.(clock := net.clock + d)
    case RunCheck(n, v) =>
      var c := Check(n, t, net.clock, o, v, net.peers[n]);
      net.(peers := net.peers[n := c.slice], transfers := Sent(net.transfers, c.sent))
    case DeliverTransfer(n, tr, joined, keep) =>
      var h := Receive(n, joined, net.clock, tr, net.peers[n]);
      net.(peers := net.peers[n := h.slice], acks := Sent(net.acks, h.ack),
           transfers := Taken(net.transfers, tr, keep || n != tr.newOwner))
    case DeliverAck(a, keep) =>
      var net1 := net.(acks := Taken(net.acks, a, keep));
      if a.target in net.peers then
        net1.(peers := net.peers[a.target := AckArrives(net.peers[a.target])])
      else
        net1
    case InsertCopy(n, isOwner) =>
      var h := Insert(net.clock, isOwner, net.peers[n]);
      net.(peers := net.peers[n := h.slice], acks := Sent(net.acks, h.ack))
    case UpdateCopy(n, owner) => net.(peers := net.peers[n := Update(net.clock, owner, net.peers[n])])
    case DeleteCopy(n) => net.(peers := net.peers[n := Delete(net.peers[n])])
    case Departure(n, from) => net.(peers := net.peers[n := PeerLeaves(from, net.peers[n])])
    case Closest(n, c) => net.(peers := net.peers[n := NoteClosest(c, net.peers[n])])
    case LoseTransfer(tr) => net.(transfers := net.transfers - multiset{tr})
    case LoseAck(a) => net.(acks := net.acks - multiset{a})
  }

  ghost predicate Runs(t: Time, o: Id, states: seq<Net>, steps: seq<Step>) {
    && |states| == |steps| + 1
    && forall i {:trigger steps[i]} :: 0 <= i < |steps| ==>
        Enabled(states[i], steps[i]) && states[i + 1] == Next(t, o, states[i], steps[i])
  }

  predicate Owner(net: Net, n: Id) {
    n in net.peers && net.peers[n].Owns()
  }

  predicate InTransit(net: Net, n: Id) {
    n in net.peers && net.peers[n].InTransit()
  }

  ghost predicate OneOwnerAtMost(net: Net) {
    forall m, n :: Owner(net, m) && Owner(net, n) ==> m == n
  }

  ghost predicate SomeoneAnswers(net: Net) {
    exists n :: Owner(net, n) || InTransit(net, n)
  }

  // One owner, no countdown running, nothing in flight.
  ghost predicate Settled(net: Net, owner: Id) {
    && 0 !in net.peers
    && owner in net.peers
    && net.transfers == multiset{} && net.acks == multiset{}
    && (forall n :: Owner(net, n) <==> n == owner)
    && forall n :: n in net.peers ==>
        && !net.peers[n].InTransit()
        && net.peers[n].transferAt.None?
        && net.peers[n].pending.None?
  }
}
