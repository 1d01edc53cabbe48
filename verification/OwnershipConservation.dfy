/** Conservation of ownership, with no assumption on time.

    Owners, travelling orders and queued orders are the places a right to the
    object can be.  No step adds to them except a claim or a direct grant, as
    long as no order is delivered twice to the peer it names. */
module OwnershipConservation {
  import opened Options
  import opened Ownership
  import opened OwnershipNet

  function Owners(peers: map<Id, Slice>): set<Id> {
    set n | n in peers && peers[n].Owns()
  }

  function Queues(peers: map<Id, Slice>): set<Id> {
    set n | n in peers && peers[n].pending.Some?
  }

  function Weight(net: Net): nat {
    |Owners(net.peers)| + |Queues(net.peers)| + |net.transfers|
  }

  function SliceWeight(s: Slice): nat {
    (if s.Owns() then 1 else 0) + (if s.pending.Some? then 1 else 0)
  }

  // New rights a step brings in: claims, and ownership handed out directly.
  function Issued(t: Time, o: Id, net: Net, step: Step): nat
    requires Enabled(net, step)
  {
    match step
    case RunCheck(n, v) => if Check(n, t, net.clock, o, v, net.peers[n]).claimed then 1 else 0
    case InsertCopy(n, isOwner) => if isOwner && net.peers[n].obj.None? then 1 else 0
    case UpdateCopy(_, owner) => if owner == Some(true) then 1 else 0
    case _ => 0
  }

  ghost function IssuedBy(t: Time, o: Id, states: seq<Net>, steps: seq<Step>, k: nat): nat
    requires Runs(t, o, states, steps) && k <= |steps|
  {
    if k == 0 then 0 else IssuedBy(t, o, states, steps, k - 1) + Issued(t, o, states[k - 1], steps[k - 1])
  }

  predicate DeliversOnce(step: Step) {
    step.DeliverTransfer? && step.n == step.tr.newOwner ==> !step.keep
  }

  lemma SwapOwners(peers: map<Id, Slice>, n: Id, s: Slice)
    requires n in peers
    ensures |Owners(peers[n := s])| + (if peers[n].Owns() then 1 else 0)
         == |Owners(peers)| + (if s.Owns() then 1 else 0)
  {
    var rest := Owners(peers) - {n};
    assert Owners(peers) == rest + if peers[n].Owns() then {n} else {};
    assert Owners(peers[n := s]) == rest + if s.Owns() then {n} else {};
  }

  lemma SwapQueues(peers: map<Id, Slice>, n: Id, s: Slice)
    requires n in peers
    ensures |Queues(peers[n := s])| + (if peers[n].pending.Some? then 1 else 0)
         == |Queues(peers)| + (if s.pending.Some? then 1 else 0)
  {
    var rest := Queues(peers) - {n};
    assert Queues(peers) == rest + if peers[n].pending.Some? then {n} else {};
    assert Queues(peers[n := s]) == rest + if s.pending.Some? then {n} else {};
  }

  // One peer's slice changes: the weight grows by no more than the slice and
  // the travelling orders do.
  lemma SwapWeight(net: Net, net': Net, n: Id, s: Slice, issued: nat)
    requires n in net.peers && net'.peers == net.peers[n := s]
    requires SliceWeight(s) + |net'.transfers| <= SliceWeight(net.peers[n]) + |net.transfers| + issued
    ensures Weight(net') <= Weight(net) + issued
  {
    SwapOwners(net.peers, n, s);
    SwapQueues(net.peers, n, s);
  }

  lemma CheckConserves(t: Time, o: Id, net: Net, n: Id, v: View)
    requires Enabled(net, RunCheck(n, v))
    ensures Weight(Next(t, o, net, RunCheck(n, v))) <= Weight(net) + Issued(t, o, net, RunCheck(n, v))
  {
    var c := Check(n, t, net.clock, o, v, net.peers[n]);
    SwapWeight(net, Next(t, o, net, RunCheck(n, v)), n, c.slice, if c.claimed then 1 else 0);
  }

  lemma DeliveryConserves(t: Time, o: Id, net: Net, step: Step)
    requires step.DeliverTransfer? && Enabled(net, step) && DeliversOnce(step)
    ensures Weight(Next(t, o, net, step)) <= Weight(net)
  {
    var net' := Next(t, o, net, step);
    var s := net.peers[step.n];
    var h := Receive(step.n, step.joined, net.clock, step.tr, s);
    if step.n == step.tr.newOwner {
      assert |net'.transfers| + 1 == |net.transfers|;
      assert SliceWeight(h.slice) <= SliceWeight(s) + 1;
    } else {
      assert h.slice == s;
    }
    SwapWeight(net, net', step.n, h.slice, 0);
  }

  // The steps that change one peer's slice and no order.
  lemma OtherConserves(t: Time, o: Id, net: Net, step: Step, n: Id)
    requires Enabled(net, step) && n in net.peers
    requires !step.RunCheck? && !step.DeliverTransfer? && !step.LoseTransfer?
    requires Next(t, o, net, step).peers == net.peers[n := Next(t, o, net, step).peers[n]]
    requires SliceWeight(Next(t, o, net, step).peers[n]) <= SliceWeight(net.peers[n]) + Issued(t, o, net, step)
    ensures Weight(Next(t, o, net, step)) <= Weight(net) + Issued(t, o, net, step)
  {
    var net' := Next(t, o, net, step);
    assert net'.transfers == net.transfers;
    SwapWeight(net, net', n, net'.peers[n], Issued(t, o, net, step));
  }

  /** No step creates a right that it does not issue. */
  lemma StepConserves(t: Time, o: Id, net: Net, step: Step)
    requires Enabled(net, step) && DeliversOnce(step)
    ensures Weight(Next(t, o, net, step)) <= Weight(net) + Issued(t, o, net, step)
  {
    match step {
      case RunCheck(n, v) => CheckConserves(t, o, net, n, v);
      case DeliverTransfer(_, _, _, _) => DeliveryConserves(t, o, net, step);
      case DeliverAck(a, _) =>
        if a.target in net.peers {
          OtherConserves(t, o, net, step, a.target);
        }
      case InsertCopy(n, _) => OtherConserves(t, o, net, step, n);
      case UpdateCopy(n, _) => OtherConserves(t, o, net, step, n);
      case DeleteCopy(n) => OtherConserves(t, o, net, step, n);
      case Departure(n, _) => OtherConserves(t, o, net, step, n);
      case Closest(n, _) => OtherConserves(t, o, net, step, n);
      case _ =>
    }
  }

  /** Main result: over every run that delivers each order at most once to the
      peer it names, owners plus orders travelling plus orders queued never
      exceed what there was at the start plus the claims and grants so far. */
  lemma {:induction false} Conservation(t: Time, o: Id, states: seq<Net>, steps: seq<Step>, k: nat)
    requires Runs(t, o, states, steps) && k <= |steps|
    requires forall i {:trigger steps[i]} :: 0 <= i < |steps| ==> DeliversOnce(steps[i])
    ensures Weight(states[k]) <= Weight(states[0]) + IssuedBy(t, o, states, steps, k)
  {
    if k > 0 {
      Conservation(t, o, states, steps, k - 1);
      assert DeliversOnce(steps[k - 1]);
      StepConserves(t, o, states[k - 1], steps[k - 1]);
    }
  }

  lemma SettledWeighsOne(net: Net, owner: Id)
    requires Settled(net, owner)
    ensures Weight(net) == 1
  {
    assert forall n :: n in Owners(net.peers) <==> Owner(net, n);
    assert Owners(net.peers) == {owner};
    assert Queues(net.peers) == {};
  }

  ghost predicate QueuesNamed(net: Net) {
    forall n :: n in net.peers && net.peers[n].pending.Some? ==> net.peers[n].pending.value.newOwner == n
  }

  /** Whoever becomes owner without a claim or a grant was named by an order
      that was travelling or queued at that very peer. */
  lemma OnlyNamedAccepts(t: Time, o: Id, net: Net, step: Step, n: Id)
    requires QueuesNamed(net) && Enabled(net, step) && Issued(t, o, net, step) == 0
    requires Owner(Next(t, o, net, step), n) && !Owner(net, n)
    ensures exists tr: Transfer ::
              && tr.newOwner == n
              && (tr in net.transfers || (n in net.peers && net.peers[n].pending == Some(tr)))
  {
    if step.DeliverTransfer? {
      assert step.tr in net.transfers && step.tr.newOwner == n;
    } else {
      assert step.InsertCopy?;
      assert net.peers[n].pending.Some? && net.peers[n].pending.value.newOwner == n;
    }
  }

  lemma CheckKeepsQueue(self: Id, t: Time, now: Time, o: Id, v: View, s: Slice)
    requires s.obj.Some?
    ensures Check(self, t, now, o, v, s).slice.pending == s.pending
  {
  }

  lemma QueueAt(net: Net, net': Net, n: Id, s: Slice)
    requires QueuesNamed(net) && n in net.peers && net'.peers == net.peers[n := s]
    requires s.pending.Some? ==> s.pending == net.peers[n].pending || s.pending.value.newOwner == n
    ensures QueuesNamed(net')
  {
    forall m | m in net'.peers && net'.peers[m].pending.Some?
      ensures net'.peers[m].pending.value.newOwner == m
    {
      if m != n {
        assert net'.peers[m] == net.peers[m];
      }
    }
  }

  lemma CheckKeepsQueuesNamed(t: Time, o: Id, net: Net, n: Id, v: View)
    requires QueuesNamed(net) && Enabled(net, RunCheck(n, v))
    ensures QueuesNamed(Next(t, o, net, RunCheck(n, v)))
  {
    CheckKeepsQueue(n, t, net.clock, o, v, net.peers[n]);
    QueueAt(net, Next(t, o, net, RunCheck(n, v)), n, Check(n, t, net.clock, o, v, net.peers[n]).slice);
  }

  lemma DeliveryKeepsQueuesNamed(t: Time, o: Id, net: Net, step: Step)
    requires QueuesNamed(net) && Enabled(net, step) && step.DeliverTransfer?
    ensures QueuesNamed(Next(t, o, net, step))
  {
    var h := Receive(step.n, step.joined, net.clock, step.tr, net.peers[step.n]);
    QueueAt(net, Next(t, o, net, step), step.n, h.slice);
  }

  // The steps that bring no order to anybody's queue.
  lemma OtherKeepsQueuesNamed(t: Time, o: Id, net: Net, step: Step, n: Id)
    requires QueuesNamed(net) && Enabled(net, step) && n in net.peers
    requires Next(t, o, net, step).peers == net.peers[n := Next(t, o, net, step).peers[n]]
    requires Next(t, o, net, step).peers[n].pending in {None, net.peers[n].pending}
    ensures QueuesNamed(Next(t, o, net, step))
  {
    var net' := Next(t, o, net, step);
    QueueAt(net, net', n, net'.peers[n]);
  }

  lemma StepKeepsQueuesNamed(t: Time, o: Id, net: Net, step: Step)
    requires QueuesNamed(net) && Enabled(net, step)
    ensures QueuesNamed(Next(t, o, net, step))
  {
    match step {
      case RunCheck(n, v) => CheckKeepsQueuesNamed(t, o, net, n, v);
      case DeliverTransfer(_, _, _, _) => DeliveryKeepsQueuesNamed(t, o, net, step);
      case DeliverAck(a, _) =>
        if a.target in net.peers {
          OtherKeepsQueuesNamed(t, o, net, step, a.target);
        }
      case InsertCopy(n, _) => OtherKeepsQueuesNamed(t, o, net, step, n);
      case UpdateCopy(n, _) => OtherKeepsQueuesNamed(t, o, net, step, n);
      case DeleteCopy(n) => OtherKeepsQueuesNamed(t, o, net, step, n);
      case Departure(n, _) => OtherKeepsQueuesNamed(t, o, net, step, n);
      case Closest(n, _) => OtherKeepsQueuesNamed(t, o, net, step, n);
      case _ =>
    }
  }

  lemma {:induction false} QueuesStayNamed(t: Time, o: Id, states: seq<Net>, steps: seq<Step>, k: nat)
    requires Runs(t, o, states, steps) && k <= |steps| && QueuesNamed(states[0])
    ensures QueuesNamed(states[k])
  {
    if k > 0 {
      QueuesStayNamed(t, o, states, steps, k - 1);
      StepKeepsQueuesNamed(t, o, states[k - 1], steps[k - 1]);
    }
  }
}
