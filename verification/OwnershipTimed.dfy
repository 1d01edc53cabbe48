/** Single ownership under bounded delays.

    The code never checks that a hand-over is unique; it relies on its 1T and
    3T countdowns outlasting the messages.  Here every delay the argument
    needs is named (`Timely`), and ownership is proved single and never lost
    over every run that keeps those delays. */
module OwnershipTimed {
  import opened Options
  import opened Ownership
  import opened OwnershipNet

  // A step the delay assumptions allow.
  predicate Timely(t: Time, net: Net, step: Step) {
    match step
    // an acknowledgement arrives in less than t after the acceptance
    case Advance(d) => forall a :: a in net.acks ==> net.clock + d < a.accepted + t
    case LoseAck(_) => false
    // an accepted order is accepted in less than t after the release
    case DeliverTransfer(n, tr, joined, _) =>
      joined && n == tr.newOwner && n in net.peers && net.peers[n].obj.Some? ==> net.clock < tr.sent + t
    // a copy never comes with ownership, and releases a queued order in time
    case InsertCopy(n, isOwner) =>
      n in net.peers && net.peers[n].obj.None? ==>
        !isOwner && (net.peers[n].pending.Some? ==> net.clock < net.peers[n].pending.value.sent + t)
    case UpdateCopy(_, owner) => owner.None?
    case DeleteCopy(_) => false
    // nobody claims merely because the object sits in its region
    case RunCheck(n, v) =>
      n in net.peers && v.inRegion && net.peers[n].obj.Some? && !net.peers[n].Owns() ==>
        net.clock < ReclaimDeadline(t, net.clock, net.peers[n])
    case _ => true
  }

  // History the argument needs: since when the owner owns, the latest release,
  // and when that release was first accepted.
  datatype History = History(since: Time, last: Option<Transfer>, taken: Option<Time>)

  ghost predicate SlicesFine(t: Time, net: Net, h: History) {
    forall n :: n in net.peers ==>
      var s := net.peers[n];
      && (s.InTransit() ==>
            && !s.Owns()
            && h.last.Some? && n == h.last.value.oldOwner
            && s.obj.value.inTransit == h.last.value.sent + 3 * t)
      && (s.transferAt.Some? ==> s.Owns() && s.transferAt.value >= h.since + t)
      && (s.pending.Some? ==> s.obj.None? && s.pending.value.newOwner == n)
  }

  // An order that is not the latest release can no longer be accepted.
  ghost predicate OrderFine(t: Time, net: Net, h: History, tr: Transfer) {
    && h.last.Some?
    && (tr == h.last.value || tr.sent + t <= net.clock)
  }

  ghost predicate OrdersFine(t: Time, net: Net, h: History) {
    && (forall tr :: tr in net.transfers ==> OrderFine(t, net, h, tr))
    && (forall n :: n in net.peers && net.peers[n].pending.Some? ==>
          OrderFine(t, net, h, net.peers[n].pending.value))
  }

  ghost predicate AckFine(t: Time, net: Net, h: History, a: Ack) {
    && h.last.Some?
    && net.clock < a.accepted + t
    && a.accepted < a.sent + t
    && (a.target == h.last.value.oldOwner ==> a.sent == h.last.value.sent)
    && (if a.sent == h.last.value.sent then a.target == h.last.value.oldOwner && h.taken.Some?
        else a.sent + t <= h.last.value.sent)
  }

  ghost predicate AcksFine(t: Time, net: Net, h: History) {
    forall a :: a in net.acks ==> AckFine(t, net, h, a)
  }

  // The first acknowledgement of the latest release is still on its way.
  ghost predicate FirstAckTravels(net: Net, h: History) {
    h.last.Some? && h.taken.Some? &&
    exists a :: a in net.acks && a.target == h.last.value.oldOwner && a.accepted == h.taken.value
  }

  ghost predicate Phase(t: Time, net: Net, h: History) {
    && OneOwnerAtMost(net)
    && h.since <= net.clock
    && (h.last.None? ==> h.taken.None? && exists n :: Owner(net, n))
    && (h.last.Some? ==>
          var tr := h.last.value;
          && tr.sent <= net.clock
          && tr.oldOwner in net.peers && tr.oldOwner != 0 && tr.newOwner != tr.oldOwner
          && (h.taken.Some? ==>
                && Owner(net, tr.newOwner)
                && h.since == h.taken.value
                && tr.sent <= h.since < tr.sent + t
                && (InTransit(net, tr.oldOwner) ==> FirstAckTravels(net, h)))
          && (h.taken.None? ==>
                if InTransit(net, tr.oldOwner) then
                  forall n :: !Owner(net, n)
                else
                  && Owner(net, tr.oldOwner)
                  && tr.sent + 3 * t <= h.since))
  }

  ghost predicate Inv(t: Time, net: Net, h: History) {
    && 0 !in net.peers
    && SlicesFine(t, net, h) && OrdersFine(t, net, h) && AcksFine(t, net, h) && Phase(t, net, h)
  }

  lemma SettledIsFine(t: Time, net: Net, owner: Id)
    requires Settled(net, owner)
    ensures Inv(t, net, History(net.clock, None, None))
  {
    assert Owner(net, owner);
  }

  // How a step changes the history.
  ghost function Track(t: Time, o: Id, net: Net, h: History, step: Step): History
    requires Enabled(net, step)
  {
    match step
    case RunCheck(n, v) =>
      var c := Check(n, t, net.clock, o, v, net.peers[n]);
      if c.sent.Some? then History(h.since, c.sent, None)
      else if c.claimed then h.(since := net.clock)
      else h
    case DeliverTransfer(n, tr, joined, _) =>
      if Receive(n, joined, net.clock, tr, net.peers[n]).ack.Some? && h.taken.None? then
        h.(since := net.clock, taken := Some(net.clock))
      else h
    case InsertCopy(n, isOwner) =>
      if Insert(net.clock, isOwner, net.peers[n]).ack.Some? && h.taken.None? then
        h.(since := net.clock, taken := Some(net.clock))
      else h
    case _ => h
  }

  // Slices that agree on ownership and transit.
  predicate SameCore(s: Slice, s': Slice) {
    && s.Owns() == s'.Owns()
    && s.InTransit() == s'.InTransit()
    && (s.InTransit() ==> s.obj.value.inTransit == s'.obj.value.inTransit)
  }

  // A release countdown is kept, dropped, or started by an owner just now.
  predicate CountdownFine(t: Time, net: Net, s: Slice, s': Slice) {
    s'.transferAt.Some? ==>
      s'.transferAt == s.transferAt || (s'.Owns() && s'.transferAt.value == net.clock + t)
  }

  // A queued order was queued before or has just arrived.
  predicate QueueFine(net: Net, n: Id, s: Slice, s': Slice) {
    s'.pending.Some? ==>
      && s'.obj.None?
      && s'.pending.value.newOwner == n
      && (s'.pending == s.pending || s'.pending.value in net.transfers)
  }

  ghost predicate Quiet(t: Time, net: Net, net': Net) {
    && net.clock <= net'.clock
    && net'.peers.Keys == net.peers.Keys
    && (forall n :: n in net.peers ==>
          && SameCore(net.peers[n], net'.peers[n])
          && CountdownFine(t, net, net.peers[n], net'.peers[n])
          && QueueFine(net, n, net.peers[n], net'.peers[n]))
    && net'.transfers <= net.transfers
    && net'.acks == net.acks
    && forall a :: a in net'.acks ==> net'.clock < a.accepted + t
  }

  lemma QuietKeepsFacts(t: Time, net: Net, net': Net, h: History)
    requires Inv(t, net, h) && Quiet(t, net, net')
    ensures SlicesFine(t, net', h) && OrdersFine(t, net', h) && AcksFine(t, net', h)
  {
    forall n | n in net'.peers
      ensures SameCore(net.peers[n], net'.peers[n])
      ensures CountdownFine(t, net, net.peers[n], net'.peers[n])
      ensures QueueFine(net, n, net.peers[n], net'.peers[n])
    {
    }
    forall tr | tr in net'.transfers
      ensures OrderFine(t, net', h, tr)
    {
      assert tr in net.transfers;
      assert OrderFine(t, net, h, tr);
    }
    forall n | n in net'.peers && net'.peers[n].pending.Some?
      ensures OrderFine(t, net', h, net'.peers[n].pending.value)
    {
      assert QueueFine(net, n, net.peers[n], net'.peers[n]);
      assert OrderFine(t, net, h, net'.peers[n].pending.value);
    }
    forall a | a in net'.acks
      ensures AckFine(t, net', h, a)
    {
      assert AckFine(t, net, h, a);
    }
  }

  lemma QuietKeepsPhase(t: Time, net: Net, net': Net, h: History)
    requires Inv(t, net, h) && Quiet(t, net, net')
    ensures Phase(t, net', h)
  {
    assert forall n :: Owner(net', n) <==> Owner(net, n);
    assert forall n :: InTransit(net', n) <==> InTransit(net, n);
    assert FirstAckTravels(net', h) <==> FirstAckTravels(net, h);
    if h.last.None? {
      var n :| Owner(net, n);
      assert Owner(net', n);
    }
  }

  lemma QuietKeepsInv(t: Time, net: Net, net': Net, h: History)
    requires Inv(t, net, h) && Quiet(t, net, net')
    ensures Inv(t, net', h)
  {
    QuietKeepsFacts(t, net, net', h);
    QuietKeepsPhase(t, net, net', h);
  }

  // One peer's slice changes quietly.
  lemma QuietAt(t: Time, net: Net, net': Net, h: History, n: Id, s: Slice)
    requires Inv(t, net, h) && n in net.peers
    requires net'.peers == net.peers[n := s] && net'.clock == net.clock
    requires net'.transfers <= net.transfers && net'.acks == net.acks
    requires SameCore(net.peers[n], s) && CountdownFine(t, net, net.peers[n], s) && QueueFine(net, n, net.peers[n], s)
    ensures Inv(t, net', h)
  {
    AcksInTime(t, net, h);
    QuietKeepsInv(t, net, net', h);
  }

  lemma AdvanceStep(t: Time, o: Id, net: Net, h: History, d: nat)
    requires Inv(t, net, h) && Timely(t, net, Advance(d))
    ensures Inv(t, Next(t, o, net, Advance(d)), h)
  {
    QuietKeepsInv(t, net, Next(t, o, net, Advance(d)), h);
  }

  lemma LossStep(t: Time, o: Id, net: Net, h: History, tr: Transfer)
    requires Inv(t, net, h) && tr in net.transfers
    ensures Inv(t, Next(t, o, net, LoseTransfer(tr)), h)
  {
    AcksInTime(t, net, h);
    QuietKeepsInv(t, net, Next(t, o, net, LoseTransfer(tr)), h);
  }

  lemma QuietStep(t: Time, o: Id, net: Net, h: History, step: Step)
    requires Inv(t, net, h) && Enabled(net, step) && Timely(t, net, step)
    requires step.Advance? || step.UpdateCopy? || step.Departure? || step.Closest? || step.LoseTransfer?
    ensures Inv(t, Next(t, o, net, step), h)
  {
    match step {
      case Advance(d) => AdvanceStep(t, o, net, h, d);
      case LoseTransfer(tr) => LossStep(t, o, net, h, tr);
      case UpdateCopy(n, owner) =>
        QuietAt(t, net, Next(t, o, net, step), h, n, Update(net.clock, owner, net.peers[n]));
      case Departure(n, from) =>
        QuietAt(t, net, Next(t, o, net, step), h, n, PeerLeaves(from, net.peers[n]));
      case Closest(n, c) =>
        QuietAt(t, net, Next(t, o, net, step), h, n, NoteClosest(c, net.peers[n]));
    }
  }

  // ---------------------------------------------------------------- check

  lemma QuietCheck(t: Time, o: Id, net: Net, h: History, n: Id, v: View)
    requires Inv(t, net, h) && Enabled(net, RunCheck(n, v)) && Timely(t, net, RunCheck(n, v))
    requires var c := Check(n, t, net.clock, o, v, net.peers[n]); c.sent.None? && !c.claimed
    ensures Inv(t, Next(t, o, net, RunCheck(n, v)), h)
  {
    QuietAt(t, net, Next(t, o, net, RunCheck(n, v)), h, n, Check(n, t, net.clock, o, v, net.peers[n]).slice);
  }

  lemma AcksInTime(t: Time, net: Net, h: History)
    requires Inv(t, net, h)
    ensures forall a :: a in net.acks ==> net.clock < a.accepted + t
  {
    forall a | a in net.acks
      ensures net.clock < a.accepted + t
    {
      assert AckFine(t, net, h, a);
    }
  }

  // While the owner's countdown has run out nobody is in transit and no
  // acknowledgement for the owner travels.
  lemma ReadyToRelease(t: Time, net: Net, h: History, n: Id)
    requires t > 0 && Inv(t, net, h) && Owner(net, n) && h.since + t <= net.clock
    ensures forall m :: !InTransit(net, m)
    ensures forall a :: a in net.acks ==> a.target != n
    ensures forall a :: a in net.acks ==> a.sent + t <= net.clock
    ensures h.last.Some? ==> h.last.value.sent + t <= net.clock
  {
    forall a | a in net.acks
      ensures a.target != n && a.sent + t <= net.clock
    {
      assert AckFine(t, net, h, a);
    }
  }

  lemma Release(t: Time, o: Id, net: Net, h: History, n: Id, v: View)
    requires t > 0 && Inv(t, net, h) && Enabled(net, RunCheck(n, v))
    requires Check(n, t, net.clock, o, v, net.peers[n]).sent.Some?
    ensures Inv(t, Next(t, o, net, RunCheck(n, v)), Track(t, o, net, h, RunCheck(n, v)))
  {
    var net' := Next(t, o, net, RunCheck(n, v));
    var h' := Track(t, o, net, h, RunCheck(n, v));
    var s := net.peers[n];
    assert Owner(net, n);
    ReadyToRelease(t, net, h, n);
    assert forall m :: m in net.peers && m != n ==> net'.peers[m] == net.peers[m];
    assert forall m :: !Owner(net', m) by {
      forall m | Owner(net', m)
        ensures false
      {
        if m != n {
          assert Owner(net, m);
        }
      }
    }
    assert SlicesFine(t, net', h') by {
      forall m | m in net.peers && m != n
        ensures !net.peers[m].InTransit() && net.peers[m].transferAt.None?
      {
        assert !InTransit(net, m);
        assert !Owner(net', m);
      }
    }
    ReleaseOrders(t, o, net, h, n, v);
    assert AcksFine(t, net', h') by {
      forall a | a in net'.acks
        ensures AckFine(t, net', h', a)
      {
        assert AckFine(t, net, h, a);
      }
    }
    assert InTransit(net', n);
  }

  lemma ReleaseOrders(t: Time, o: Id, net: Net, h: History, n: Id, v: View)
    requires t > 0 && Inv(t, net, h) && Enabled(net, RunCheck(n, v)) && Owner(net, n)
    requires h.last.Some? ==> h.last.value.sent + t <= net.clock
    requires Check(n, t, net.clock, o, v, net.peers[n]).sent.Some?
    ensures OrdersFine(t, Next(t, o, net, RunCheck(n, v)), Track(t, o, net, h, RunCheck(n, v)))
  {
    var net' := Next(t, o, net, RunCheck(n, v));
    var h' := Track(t, o, net, h, RunCheck(n, v));
    forall tr | tr in net'.transfers
      ensures OrderFine(t, net', h', tr)
    {
      if tr != h'.last.value {
        assert tr in net.transfers;
        assert OrderFine(t, net, h, tr);
      }
    }
    forall m | m in net'.peers && net'.peers[m].pending.Some?
      ensures OrderFine(t, net', h', net'.peers[m].pending.value)
    {
      assert OrderFine(t, net, h, net.peers[m].pending.value);
    }
  }

  // A countdown that ran out at the releaser: the order was never accepted.
  lemma Reclaim(t: Time, o: Id, net: Net, h: History, n: Id, v: View)
    requires t > 0 && Inv(t, net, h) && Enabled(net, RunCheck(n, v)) && Timely(t, net, RunCheck(n, v))
    requires var c := Check(n, t, net.clock, o, v, net.peers[n]); c.claimed && c.sent.None?
    ensures Inv(t, Next(t, o, net, RunCheck(n, v)), Track(t, o, net, h, RunCheck(n, v)))
  {
    var net' := Next(t, o, net, RunCheck(n, v));
    var h' := Track(t, o, net, h, RunCheck(n, v));
    assert InTransit(net, n) && n == h.last.value.oldOwner;
    assert net.clock >= h.last.value.sent + 3 * t;
    assert h.taken.None?;
    assert forall m :: !Owner(net, m);
    assert forall m :: m in net.peers && m != n ==> net'.peers[m] == net.peers[m];
    assert forall m :: Owner(net', m) <==> m == n by {
      forall m | Owner(net', m) && m != n
        ensures false
      {
        assert Owner(net, m);
      }
    }
    assert SlicesFine(t, net', h') by {
      forall m | m in net.peers && m != n
        ensures !net.peers[m].InTransit() && net.peers[m].transferAt.None?
      {
        assert !Owner(net, m);
      }
    }
    assert OrdersFine(t, net', h') by {
      forall tr | tr in net'.transfers
        ensures OrderFine(t, net', h', tr)
      {
        assert OrderFine(t, net, h, tr);
      }
      forall m | m in net'.peers && net'.peers[m].pending.Some?
        ensures OrderFine(t, net', h', net'.peers[m].pending.value)
      {
        assert OrderFine(t, net, h, net.peers[m].pending.value);
      }
    }
    assert !InTransit(net', n);
  }

  // ---------------------------------------------------------------- acceptance

  // Peer n takes up order tr, from the network or from its own queue.
  ghost predicate Accepts(t: Time, net: Net, net': Net, n: Id, tr: Transfer) {
    && n in net.peers && n == tr.newOwner
    && net.clock < tr.sent + t
    && (tr in net.transfers || net.peers[n].pending == Some(tr))
    && net'.clock == net.clock
    && net'.transfers <= net.transfers
    && net'.acks == Sent(net.acks, AckFor(net.clock, tr))
    && n in net'.peers
    && net'.peers == net.peers[n := net'.peers[n]]
    && var s, s' := net.peers[n], net'.peers[n];
       && s'.Owns()
       && s'.InTransit() == s.InTransit()
       && (s.InTransit() ==> s'.obj.value.inTransit == s.obj.value.inTransit)
       && s'.transferAt == s.transferAt
       && s'.pending.None?
  }

  ghost function Accepted(net: Net, h: History): History {
    if h.taken.None? then h.(since := net.clock, taken := Some(net.clock)) else h
  }

  // Only the latest release can still be accepted, and only while it has not
  // been reclaimed.
  lemma AcceptableOrder(t: Time, net: Net, h: History, n: Id, tr: Transfer)
    requires Inv(t, net, h) && n in net.peers && n == tr.newOwner
    requires net.clock < tr.sent + t
    requires tr in net.transfers || net.peers[n].pending == Some(tr)
    ensures h.last == Some(tr)
    ensures n != tr.oldOwner && !InTransit(net, n)
    ensures if h.taken.Some? then Owner(net, n)
            else InTransit(net, tr.oldOwner) && forall m :: !Owner(net, m)
  {
    assert OrderFine(t, net, h, tr);
  }

  lemma AcceptFacts(t: Time, net: Net, net': Net, h: History, n: Id, tr: Transfer)
    requires Inv(t, net, h) && Accepts(t, net, net', n, tr)
    ensures var h' := Accepted(net, h);
            SlicesFine(t, net', h') && OrdersFine(t, net', h') && AcksFine(t, net', h')
  {
    var h' := Accepted(net, h);
    AcceptableOrder(t, net, h, n, tr);
    forall m | m in net.peers && m != n
      ensures net'.peers[m] == net.peers[m]
      ensures h.taken.None? ==> net.peers[m].transferAt.None?
    {
      assert h.taken.None? ==> !Owner(net, m);
    }
    assert h.taken.None? ==> !Owner(net, n) && net.peers[n].transferAt.None?;
    forall x | x in net'.transfers
      ensures OrderFine(t, net', h', x)
    {
      assert x in net.transfers;
      assert OrderFine(t, net, h, x);
    }
    forall m | m in net'.peers && net'.peers[m].pending.Some?
      ensures OrderFine(t, net', h', net'.peers[m].pending.value)
    {
      assert OrderFine(t, net, h, net.peers[m].pending.value);
    }
    forall a | a in net'.acks
      ensures AckFine(t, net', h', a)
    {
      if a in net.acks {
        assert AckFine(t, net, h, a);
      }
    }
  }

  lemma AcceptPhase(t: Time, net: Net, net': Net, h: History, n: Id, tr: Transfer)
    requires t > 0 && Inv(t, net, h) && Accepts(t, net, net', n, tr)
    ensures Phase(t, net', Accepted(net, h))
  {
    var h' := Accepted(net, h);
    AcceptableOrder(t, net, h, n, tr);
    assert forall m :: m in net.peers && m != n ==> net'.peers[m] == net.peers[m];
    assert forall m :: m != n ==> Owner(net', m) == Owner(net, m);
    assert forall m :: InTransit(net', m) == InTransit(net, m);
    assert FirstAckTravels(net', h') || !InTransit(net', tr.oldOwner) by {
      var a := Ack(tr.obj, tr.oldOwner, tr.sent, net.clock);
      assert AckFor(net.clock, tr) == Some(a);
      assert a in net'.acks;
      if h.taken.Some? && InTransit(net, tr.oldOwner) {
        var b :| b in net.acks && b.target == h.last.value.oldOwner && b.accepted == h.taken.value;
        assert b in net'.acks;
      }
    }
  }

  lemma AcceptKeepsInv(t: Time, net: Net, net': Net, h: History, n: Id, tr: Transfer)
    requires t > 0 && Inv(t, net, h) && Accepts(t, net, net', n, tr)
    ensures Inv(t, net', Accepted(net, h))
  {
    AcceptFacts(t, net, net', h, n, tr);
    AcceptPhase(t, net, net', h, n, tr);
  }

  // ---------------------------------------------------------------- all steps

  lemma CheckStep(t: Time, o: Id, net: Net, h: History, n: Id, v: View)
    requires t > 0 && Inv(t, net, h) && Enabled(net, RunCheck(n, v)) && Timely(t, net, RunCheck(n, v))
    ensures Inv(t, Next(t, o, net, RunCheck(n, v)), Track(t, o, net, h, RunCheck(n, v)))
  {
    var c := Check(n, t, net.clock, o, v, net.peers[n]);
    if c.sent.Some? {
      Release(t, o, net, h, n, v);
    } else if c.claimed {
      Reclaim(t, o, net, h, n, v);
    } else {
      QuietCheck(t, o, net, h, n, v);
    }
  }

  lemma TransferStep(t: Time, o: Id, net: Net, h: History, step: Step)
    requires t > 0 && Inv(t, net, h) && Enabled(net, step) && Timely(t, net, step)
    requires step.DeliverTransfer?
    ensures Inv(t, Next(t, o, net, step), Track(t, o, net, h, step))
  {
    var net' := Next(t, o, net, step);
    var s := Receive(step.n, step.joined, net.clock, step.tr, net.peers[step.n]).slice;
    if step.joined && step.n == step.tr.newOwner && net.peers[step.n].obj.Some? {
      AcceptableOrder(t, net, h, step.n, step.tr);
      assert Accepts(t, net, net', step.n, step.tr);
      AcceptKeepsInv(t, net, net', h, step.n, step.tr);
    } else {
      QuietAt(t, net, net', h, step.n, s);
    }
  }

  lemma InsertStep(t: Time, o: Id, net: Net, h: History, step: Step)
    requires t > 0 && Inv(t, net, h) && Enabled(net, step) && Timely(t, net, step)
    requires step.InsertCopy?
    ensures Inv(t, Next(t, o, net, step), Track(t, o, net, h, step))
  {
    var net' := Next(t, o, net, step);
    var s := net.peers[step.n];
    if s.obj.None? && s.pending.Some? {
      AcceptableOrder(t, net, h, step.n, s.pending.value);
      assert Accepts(t, net, net', step.n, s.pending.value);
      AcceptKeepsInv(t, net, net', h, step.n, s.pending.value);
    } else {
      QuietAt(t, net, net', h, step.n, Insert(net.clock, step.isOwner, s).slice);
    }
  }

  lemma AckStep(t: Time, o: Id, net: Net, h: History, step: Step)
    requires t > 0 && Inv(t, net, h) && Enabled(net, step) && Timely(t, net, step)
    requires step.DeliverAck?
    ensures Inv(t, Next(t, o, net, step), h)
  {
    var net' := Next(t, o, net, step);
    var a := step.a;
    AcksInTime(t, net, h);
    assert AckFine(t, net, h, a);
    if InTransit(net, a.target) {
      assert forall m :: m in net.peers && m != a.target ==> net'.peers[m] == net.peers[m];
      assert forall m :: Owner(net', m) == Owner(net, m);
      assert forall m :: m != a.target ==> InTransit(net', m) == InTransit(net, m);
      assert a.target == h.last.value.oldOwner && h.taken.Some?;
      assert AcksFine(t, net', h) by {
        forall b | b in net'.acks
          ensures AckFine(t, net', h, b)
        {
          assert AckFine(t, net, h, b);
        }
      }
      assert OrdersFine(t, net', h) by {
        forall tr | tr in net'.transfers
          ensures OrderFine(t, net', h, tr)
        {
          assert OrderFine(t, net, h, tr);
        }
        forall m | m in net'.peers && net'.peers[m].pending.Some?
          ensures OrderFine(t, net', h, net'.peers[m].pending.value)
        {
          assert OrderFine(t, net, h, net.peers[m].pending.value);
        }
      }
    } else {
      AckWithoutTransit(t, o, net, h, step);
    }
  }

  // An acknowledgement that finds nothing in transit changes nothing else.
  lemma AckWithoutTransit(t: Time, o: Id, net: Net, h: History, step: Step)
    requires Inv(t, net, h) && step.DeliverAck? && Enabled(net, step)
    requires !InTransit(net, step.a.target)
    ensures Inv(t, Next(t, o, net, step), h)
  {
    var net' := Next(t, o, net, step);
    assert forall m :: m in net.peers ==> net'.peers[m] == net.peers[m];
    assert net'.peers == net.peers;
    assert forall m :: Owner(net', m) == Owner(net, m);
    assert forall m :: InTransit(net', m) == InTransit(net, m);
    assert forall b :: b in net'.acks ==> b in net.acks;
    assert forall tr :: OrderFine(t, net', h, tr) == OrderFine(t, net, h, tr);
    assert forall b :: AckFine(t, net', h, b) == AckFine(t, net, h, b);
    if h.last.Some? && h.taken.Some? && InTransit(net, h.last.value.oldOwner) {
      var b :| b in net.acks && b.target == h.last.value.oldOwner && b.accepted == h.taken.value;
      assert b != step.a;
      assert b in net'.acks;
      assert FirstAckTravels(net', h);
    }
  }

  /** Every step within the assumed delays keeps the invariant. */
  lemma StepKeepsInv(t: Time, o: Id, net: Net, h: History, step: Step)
    requires t > 0 && Inv(t, net, h) && Enabled(net, step) && Timely(t, net, step)
    ensures Inv(t, Next(t, o, net, step), Track(t, o, net, h, step))
  {
    match step {
      case RunCheck(n, v) => CheckStep(t, o, net, h, n, v);
      case DeliverTransfer(_, _, _, _) => TransferStep(t, o, net, h, step);
      case InsertCopy(_, _) => InsertStep(t, o, net, h, step);
      case DeliverAck(_, _) => AckStep(t, o, net, h, step);
      case _ => QuietStep(t, o, net, h, step);
    }
  }

  lemma InvMeansSafe(t: Time, net: Net, h: History)
    requires Inv(t, net, h)
    ensures OneOwnerAtMost(net) && SomeoneAnswers(net)
  {
    if h.last.Some? {
      var tr := h.last.value;
      assert Owner(net, tr.newOwner) || Owner(net, tr.oldOwner) || InTransit(net, tr.oldOwner);
    } else {
      var n :| Owner(net, n);
      assert Owner(net, n) || InTransit(net, n);
    }
  }

  lemma {:induction false} RunKeepsInv(t: Time, o: Id, states: seq<Net>, steps: seq<Step>, k: nat)
    requires t > 0 && Runs(t, o, states, steps) && k < |states|
    requires exists owner :: Settled(states[0], owner)
    requires forall i {:trigger steps[i]} :: 0 <= i < |steps| ==> Timely(t, states[i], steps[i])
    ensures exists h :: Inv(t, states[k], h)
  {
    if k == 0 {
      var owner :| Settled(states[0], owner);
      SettledIsFine(t, states[0], owner);
    } else {
      RunKeepsInv(t, o, states, steps, k - 1);
      var h :| Inv(t, states[k - 1], h);
      var step := steps[k - 1];
      StepKeepsInv(t, o, states[k - 1], h, step);
      assert Inv(t, states[k], Track(t, o, states[k - 1], h, step));
    }
  }

  /** Main result: over every run within the assumed delays, from one settled
      owner, no state has two owners, and in every state some peer owns the
      object or still holds it in transit. */
  lemma SingleOwnership(t: Time, o: Id, states: seq<Net>, steps: seq<Step>, k: nat)
    requires t > 0 && Runs(t, o, states, steps) && k < |states|
    requires exists owner :: Settled(states[0], owner)
    requires forall i {:trigger steps[i]} :: 0 <= i < |steps| ==> Timely(t, states[i], steps[i])
    ensures OneOwnerAtMost(states[k])
    ensures SomeoneAnswers(states[k])
  {
    RunKeepsInv(t, o, states, steps, k);
    var h :| Inv(t, states[k], h);
    InvMeansSafe(t, states[k], h);
  }

  // ---------------------------------------------------------------- the bounds are needed

  // Peer 1 owns the object, peer 2 holds an unowned copy.
  const TWO_PEERS := Net(0,
                         map[1 := Slice(Some(SharedObject(true, 0, 0, 0)), None, None, None),
                             2 := Slice(Some(SharedObject(false, 0, 0, 0)), None, None, None)],
                         multiset{}, multiset{})

  // Every step keeps the delays, but for the one at `odd` if there is one.
  ghost predicate InTimeBut(t: Time, states: seq<Net>, steps: seq<Step>, odd: Option<nat>) {
    && |states| == |steps| + 1 && states[0] == TWO_PEERS
    && (odd.Some? ==> odd.value < |steps| && !Timely(t, states[odd.value], steps[odd.value]))
    && forall i {:trigger steps[i]} :: 0 <= i < |steps| && odd != Some(i) ==> Timely(t, states[i], steps[i])
  }

  // Two peers end up owning.
  ghost predicate OneSlipTwoOwners(t: Time, o: Id, states: seq<Net>, steps: seq<Step>, odd: nat) {
    && Runs(t, o, states, steps) && InTimeBut(t, states, steps, Some(odd))
    && Owner(states[|steps|], 1) && Owner(states[|steps|], 2)
  }

  lemma RunsOn(t: Time, o: Id, states: seq<Net>, steps: seq<Step>, step: Step, next: Net)
    requires Runs(t, o, states, steps) && Enabled(states[|steps|], step) && next == Next(t, o, states[|steps|], step)
    ensures Runs(t, o, states + [next], steps + [step])
  {
    var states', steps' := states + [next], steps + [step];
    forall i {:trigger steps'[i]} | 0 <= i < |steps'|
      ensures Enabled(states'[i], steps'[i]) && states'[i + 1] == Next(t, o, states'[i], steps'[i])
    {
      if i < |steps| {
        assert steps'[i] == steps[i] && states'[i] == states[i] && states'[i + 1] == states[i + 1];
      }
    }
  }

  // A run that goes on, in time or with its one slip.
  lemma GoesOn(t: Time, o: Id, states: seq<Net>, steps: seq<Step>, odd: Option<nat>, step: Step, next: Net)
    returns (states': seq<Net>, steps': seq<Step>)
    requires Runs(t, o, states, steps) && InTimeBut(t, states, steps, odd) && Enabled(states[|steps|], step)
    requires Next(t, o, states[|steps|], step) == next
    requires Timely(t, states[|steps|], step) || odd == None
    ensures states' == states + [next] && steps' == steps + [step] && Runs(t, o, states', steps')
    ensures InTimeBut(t, states', steps', if Timely(t, states[|steps|], step) then odd else Some(|steps|))
  {
    states', steps' := states + [next], steps + [step];
    RunsOn(t, o, states, steps, step, next);
    assert forall i {:trigger steps[i]} :: 0 <= i < |steps| ==> steps'[i] == steps[i] && states'[i] == states[i];
  }

  lemma TwoPeersSettled()
    ensures Settled(TWO_PEERS, 1)
  {
  }

  const COPY := Slice(Some(SharedObject(false, 0, 0, 0)), None, None, None)

  function TwoPeers(clock: Time, one: Slice, two: Slice, transfers: multiset<Transfer>, acks: multiset<Ack>): Net {
    Net(clock, map[1 := one, 2 := two], transfers, acks)
  }

  // An owner, and its countdown if one is running.
  function Owning(since: Time, transferAt: Option<Time>): Slice {
    Slice(Some(SharedObject(true, 0, since, 0)), transferAt, None, None)
  }

  function Releasing(until: Time): Slice {
    Slice(Some(SharedObject(false, until, 0, 0)), None, None, None)
  }

  // The releaser's countdown runs out.
  lemma ReleaserClaims(t: Time, o: Id, two: Slice, transfers: multiset<Transfer>, acks: multiset<Ack>)
    requires t > 0
    ensures Next(t, o, TwoPeers(4 * t, Releasing(4 * t), two, transfers, acks), RunCheck(1, View(false, 2))) ==
            TwoPeers(4 * t, Owning(4 * t, None), two, transfers, acks)
  {
    assert multiset{} + transfers == transfers;
  }

  // Peer 2 accepts the order.
  lemma OrderTaken(t: Time, o: Id, clock: Time, one: Slice)
    ensures Next(t, o, TwoPeers(clock, one, COPY, multiset{Order(t, o)}, multiset{}),
                 DeliverTransfer(2, Order(t, o), true, false)) ==
            TwoPeers(clock, one, Owning(clock, None), multiset{}, multiset{Ack(o, 1, t, clock)})
  {
  }

  /** A claim made only because the object sits in the claimer's region. */
  lemma RegionClaimDuplicates(t: Time, o: Id)
    requires t > 0
    ensures exists states: seq<Net>, steps: seq<Step>, odd: nat ::
              OneSlipTwoOwners(t, o, states, steps, odd) && steps[odd].RunCheck?
  {
    var look := RunCheck(2, View(true, 2));
    var waiting := COPY.(reclaimAt := Some(5 * t));
    var states, steps := [TWO_PEERS], [];
    states, steps := GoesOn(t, o, states, steps, None, look,
                            TwoPeers(0, Owning(0, None), waiting, multiset{}, multiset{}));
    states, steps := GoesOn(t, o, states, steps, None, Advance(5 * t),
                            TwoPeers(5 * t, Owning(0, None), waiting, multiset{}, multiset{}));
    states, steps := GoesOn(t, o, states, steps, None, look,
                            TwoPeers(5 * t, Owning(0, None), Owning(5 * t, None), multiset{}, multiset{}));
    assert OneSlipTwoOwners(t, o, states, steps, 2) && steps[2] == look;
  }

  function Order(t: Time, o: Id): Transfer {
    Transfer(o, 2, 1, t)
  }

  // Peer 1 counts down and releases the object to peer 2.
  lemma Released(t: Time, o: Id) returns (states: seq<Net>, steps: seq<Step>)
    requires t > 0
    ensures Runs(t, o, states, steps) && InTimeBut(t, states, steps, None) && |steps| == 3
    ensures states[3] == TwoPeers(t, Releasing(4 * t), COPY, multiset{Order(t, o)}, multiset{})
  {
    var away := RunCheck(1, View(false, 2));
    states, steps := [TWO_PEERS], [];
    states, steps := GoesOn(t, o, states, steps, None, away,
                            TwoPeers(0, Owning(0, Some(t)), COPY, multiset{}, multiset{}));
    states, steps := GoesOn(t, o, states, steps, None, Advance(t),
                            TwoPeers(t, Owning(0, Some(t)), COPY, multiset{}, multiset{}));
    states, steps := GoesOn(t, o, states, steps, None, away,
                            TwoPeers(t, Releasing(4 * t), COPY, multiset{Order(t, o)}, multiset{}));
  }

  /** An acknowledgement that takes too long: the releaser reclaims an object
      that was accepted. */
  lemma LateAckDuplicates(t: Time, o: Id)
    requires t > 0
    ensures exists states: seq<Net>, steps: seq<Step>, odd: nat ::
              OneSlipTwoOwners(t, o, states, steps, odd) && steps[odd].Advance?
  {
    var ack := Ack(o, 1, t, t);
    OrderTaken(t, o, t, Releasing(4 * t));
    ReleaserClaims(t, o, Owning(t, None), multiset{}, multiset{ack});
    var states, steps := Released(t, o);
    states, steps := GoesOn(t, o, states, steps, None, DeliverTransfer(2, Order(t, o), true, false),
                            TwoPeers(t, Releasing(4 * t), Owning(t, None), multiset{}, multiset{ack}));
    assert ack in states[4].acks;
    states, steps := GoesOn(t, o, states, steps, None, Advance(3 * t),
                            TwoPeers(4 * t, Releasing(4 * t), Owning(t, None), multiset{}, multiset{ack}));
    states, steps := GoesOn(t, o, states, steps, Some(4), RunCheck(1, View(false, 2)),
                            TwoPeers(4 * t, Owning(4 * t, None), Owning(t, None), multiset{}, multiset{ack}));
    assert OneSlipTwoOwners(t, o, states, steps, 4) && steps[4] == Advance(3 * t);
  }

  /** An order accepted too late: the releaser has reclaimed the object. */
  lemma LateAcceptanceDuplicates(t: Time, o: Id)
    requires t > 0
    ensures exists states: seq<Net>, steps: seq<Step>, odd: nat ::
              OneSlipTwoOwners(t, o, states, steps, odd) && steps[odd].DeliverTransfer?
  {
    var take := DeliverTransfer(2, Order(t, o), true, false);
    ReleaserClaims(t, o, COPY, multiset{Order(t, o)}, multiset{});
    OrderTaken(t, o, 4 * t, Owning(4 * t, None));
    var states, steps := Released(t, o);
    states, steps := GoesOn(t, o, states, steps, None, Advance(3 * t),
                            TwoPeers(4 * t, Releasing(4 * t), COPY, multiset{Order(t, o)}, multiset{}));
    states, steps := GoesOn(t, o, states, steps, None, RunCheck(1, View(false, 2)),
                            TwoPeers(4 * t, Owning(4 * t, None), COPY, multiset{Order(t, o)}, multiset{}));
    states, steps := GoesOn(t, o, states, steps, None, take,
                            TwoPeers(4 * t, Owning(4 * t, None), Owning(4 * t, None), multiset{},
                                     multiset{Ack(o, 1, t, 4 * t)}));
    assert OneSlipTwoOwners(t, o, states, steps, 5) && steps[5] == take;
  }
}
