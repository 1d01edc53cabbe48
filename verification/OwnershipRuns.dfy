/** What a peer's record of an object comes to over whole runs.

    A peer keeps deadlines and flags, not histories.  Here each of them is tied
    to the steps that were really made: who releases or claims an object has
    looked at it long enough before and has seen nothing else since, and who
    queues an order applies that order when the object comes. */
module OwnershipRuns {
  import opened Options
  import opened Ownership
  import opened OwnershipNet

  // Step k is a check by peer n, finding the object in its region or not.
  predicate ChecksAt(steps: seq<Step>, k: nat, n: Id) {
    k < |steps| && steps[k].RunCheck? && steps[k].n == n
  }

  lemma {:induction false} PeersStay(t: Time, o: Id, states: seq<Net>, steps: seq<Step>, k: nat, n: Id)
    requires Runs(t, o, states, steps) && k < |states|
    ensures n in states[k].peers <==> n in states[0].peers
  {
    if k > 0 {
      PeersStay(t, o, states, steps, k - 1, n);
      StepKeepsPeers(t, o, states[k - 1], steps[k - 1], n);
    }
  }

  lemma StepKeepsPeers(t: Time, o: Id, net: Net, step: Step, n: Id)
    requires Enabled(net, step)
    ensures n in Next(t, o, net, step).peers <==> n in net.peers
    ensures net.clock <= Next(t, o, net, step).clock
  {
  }

  lemma {:induction false} ClockGoesOn(t: Time, o: Id, states: seq<Net>, steps: seq<Step>, j: nat, k: nat)
    requires Runs(t, o, states, steps) && j <= k < |states|
    ensures states[j].clock <= states[k].clock
    decreases k
  {
    if j < k {
      ClockGoesOn(t, o, states, steps, j, k - 1);
      StepKeepsPeers(t, o, states[k - 1], steps[k - 1], 0);
    }
  }

  // What a step other than a check of its own makes of one peer's slice.
  function Affected(step: Step, n: Id, clock: Time, s: Slice): Slice {
    match step
    case DeliverTransfer(m, tr, joined, _) => if m == n then Receive(n, joined, clock, tr, s).slice else s
    case DeliverAck(a, _) => if a.target == n then AckArrives(s) else s
    case InsertCopy(m, isOwner) => if m == n then Insert(clock, isOwner, s).slice else s
    case UpdateCopy(m, owner) => if m == n then Update(clock, owner, s) else s
    case DeleteCopy(m) => if m == n then Delete(s) else s
    case Departure(m, from) => if m == n then PeerLeaves(from, s) else s
    case Closest(m, c) => if m == n then NoteClosest(c, s) else s
    case _ => s
  }

  lemma AffectedIs(t: Time, o: Id, net: Net, step: Step, n: Id)
    requires Enabled(net, step) && n in net.peers && !(step.RunCheck? && step.n == n)
    ensures n in Next(t, o, net, step).peers
    ensures Next(t, o, net, step).peers[n] == Affected(step, n, net.clock, net.peers[n])
  {
  }

  // ---------------------------------------------------------------- releases

  // From check j on the owner has found the object outside its region whenever
  // it looked, and has not given it away.
  ghost predicate OutSince(states: seq<Net>, steps: seq<Step>, n: Id, j: nat, k: nat)
    requires |states| == |steps| + 1 && k <= |steps|
  {
    && j < k && ChecksAt(steps, j, n) && Owner(states[j], n)
    && forall i :: j <= i < k ==> KeptOut(states, steps, n, i)
  }

  ghost predicate KeptOut(states: seq<Net>, steps: seq<Step>, n: Id, i: nat)
    requires |states| == |steps| + 1 && i < |steps|
  {
    ChecksAt(steps, i, n) && Owner(states[i], n) ==> !steps[i].v.inRegion && Owner(states[i + 1], n)
  }

  // Who releases, and what a check does to the release countdown.
  lemma CheckCountsDown(self: Id, t: Time, now: Time, o: Id, v: View, s: Slice)
    requires t > 0 && s.obj.Some?
    ensures var c := Check(self, t, now, o, v, s);
            if !s.Owns() then c.slice.transferAt == s.transferAt && c.sent == None
            else if v.inRegion then c.slice.transferAt == None && c.slice.Owns() && c.sent == None
            else if s.transferAt.None? then c.slice.transferAt == Some(now + t) && c.slice.Owns() && c.sent == None
            else if now >= s.transferAt.value && v.closest != self then
              && c.slice.transferAt == None && !c.slice.Owns() && c.slice.obj.value.inTransit == now + 3 * t
              && c.sent == Some(Transfer(o, v.closest, self, now))
            else c.slice.transferAt == s.transferAt && c.slice.Owns() && c.sent == None
  {
  }

  // No other step touches it.
  lemma OthersKeepCountdown(t: Time, o: Id, net: Net, step: Step, n: Id)
    requires Enabled(net, step) && n in net.peers && !(step.RunCheck? && step.n == n)
    ensures var net' := Next(t, o, net, step);
            n in net'.peers && net'.peers[n].transferAt == net.peers[n].transferAt
  {
    AffectedIs(t, o, net, step, n);
  }

  // The release countdown at k is that of a stretch of checks out of the region.
  ghost predicate CountsSince(t: Time, states: seq<Net>, steps: seq<Step>, n: Id, k: nat)
    requires |states| == |steps| + 1 && k <= |steps|
  {
    && n in states[k].peers
    && var x := states[k].peers[n].transferAt;
    && (x.Some? ==> exists j: nat :: OutSince(states, steps, n, j, k) && x.value == states[j].clock + t)
    && forall j: nat :: OutSince(states, steps, n, j, k) ==> x.Some? && x.value <= states[j].clock + t
  }

  lemma OutLonger(states: seq<Net>, steps: seq<Step>, n: Id, j: nat, k: nat, next: nat)
    requires |states| == |steps| + 1 && k < |steps| && next == k + 1 && j < k
    ensures OutSince(states, steps, n, j, next) <==> OutSince(states, steps, n, j, k) && KeptOut(states, steps, n, k)
  {
  }

  // What step k of a run does to the countdown.
  ghost predicate CountsAs(t: Time, states: seq<Net>, steps: seq<Step>, n: Id, k: nat, was: Option<Time>,
                           now: Option<Time>)
    requires |states| == |steps| + 1 && k < |steps|
  {
    if ChecksAt(steps, k, n) && Owner(states[k], n) then
      if !KeptOut(states, steps, n, k) then now == None
      else now == Some(if was.Some? then was.value else states[k].clock + t)
    else now == was
  }

  lemma StepCounts(t: Time, o: Id, states: seq<Net>, steps: seq<Step>, n: Id, k: nat, next: nat)
    requires Runs(t, o, states, steps) && t > 0 && k < |steps| && next == k + 1 && n in states[k].peers
    ensures n in states[next].peers
    ensures CountsAs(t, states, steps, n, k, states[k].peers[n].transferAt, states[next].peers[n].transferAt)
  {
    var step := steps[k];
    if ChecksAt(steps, k, n) {
      CheckCountsDown(n, t, states[k].clock, o, step.v, states[k].peers[n]);
    } else {
      OthersKeepCountdown(t, o, states[k], step, n);
    }
  }

  lemma StartedBefore(t: Time, o: Id, states: seq<Net>, steps: seq<Step>, n: Id, k: nat, next: nat)
    requires Runs(t, o, states, steps) && k < |steps| && next == k + 1 && n in states[next].peers
    requires CountsSince(t, states, steps, n, k)
    requires CountsAs(t, states, steps, n, k, states[k].peers[n].transferAt, states[next].peers[n].transferAt)
    requires states[next].peers[n].transferAt.Some?
    ensures exists j: nat ::
              OutSince(states, steps, n, j, next) && states[next].peers[n].transferAt.value == states[j].clock + t
  {
    var was := states[k].peers[n].transferAt;
    if was.Some? {
      var j: nat :| OutSince(states, steps, n, j, k) && was.value == states[j].clock + t;
      OutLonger(states, steps, n, j, k, next);
    } else {
      assert OutSince(states, steps, n, k, next);
    }
  }

  lemma EndsInTime(t: Time, o: Id, states: seq<Net>, steps: seq<Step>, n: Id, k: nat, next: nat, j: nat)
    requires Runs(t, o, states, steps) && k < |steps| && next == k + 1 && n in states[next].peers
    requires CountsSince(t, states, steps, n, k) && OutSince(states, steps, n, j, next)
    requires CountsAs(t, states, steps, n, k, states[k].peers[n].transferAt, states[next].peers[n].transferAt)
    ensures var now := states[next].peers[n].transferAt; now.Some? && now.value <= states[j].clock + t
  {
    var was := states[k].peers[n].transferAt;
    if j < k {
      OutLonger(states, steps, n, j, k, next);
    } else if was.Some? {
      var i: nat :| OutSince(states, steps, n, i, k) && was.value == states[i].clock + t;
      ClockGoesOn(t, o, states, steps, i, k);
    }
  }

  lemma CountsOneMore(t: Time, o: Id, states: seq<Net>, steps: seq<Step>, n: Id, k: nat, next: nat)
    requires Runs(t, o, states, steps) && t > 0 && k < |steps| && next == k + 1
    requires CountsSince(t, states, steps, n, k)
    ensures CountsSince(t, states, steps, n, next)
  {
    StepCounts(t, o, states, steps, n, k, next);
    if states[next].peers[n].transferAt.Some? {
      StartedBefore(t, o, states, steps, n, k, next);
    }
    forall j: nat | OutSince(states, steps, n, j, next)
      ensures states[next].peers[n].transferAt.Some?
      ensures states[next].peers[n].transferAt.value <= states[j].clock + t
    {
      EndsInTime(t, o, states, steps, n, k, next, j);
    }
  }

  lemma {:induction false} AlwaysCounts(t: Time, o: Id, states: seq<Net>, steps: seq<Step>, n: Id, k: nat)
    requires Runs(t, o, states, steps) && t > 0 && k <= |steps|
    requires n in states[0].peers && states[0].peers[n].transferAt.None?
    ensures CountsSince(t, states, steps, n, k)
  {
    if k > 0 {
      AlwaysCounts(t, o, states, steps, n, k - 1);
      CountsOneMore(t, o, states, steps, n, k - 1, k);
    }
  }

  /** Over every run, a check releases the object exactly when the owner finds
      it out of its region, nearer to another peer, and has found it out of its
      region at every check for t at least: it goes in an order to the peer that
      is nearest now, and nothing else sends an order. */
  lemma ReleasesIff(t: Time, o: Id, states: seq<Net>, steps: seq<Step>, n: Id, i: nat)
    requires Runs(t, o, states, steps) && t > 0 && ChecksAt(steps, i, n) && Owner(states[i], n)
    requires n in states[0].peers && states[0].peers[n].transferAt.None?
    ensures !Owner(states[i + 1], n) <==>
            && !steps[i].v.inRegion && steps[i].v.closest != n
            && exists j: nat :: OutSince(states, steps, n, j, i) && states[j].clock + t <= states[i].clock
    ensures states[i + 1].transfers - states[i].transfers ==
            if Owner(states[i + 1], n) then multiset{}
            else multiset{Transfer(o, steps[i].v.closest, n, states[i].clock)}
  {
    AlwaysCounts(t, o, states, steps, n, i);
    CheckCountsDown(n, t, states[i].clock, o, steps[i].v, states[i].peers[n]);
  }

  // ---------------------------------------------------------------- reclaim deadlines

  // Step j sets a deadline for a claim: a check that finds an object in the
  // region and leaves it unowned, or the departure of the peer nearest to it.
  predicate Starts(states: seq<Net>, steps: seq<Step>, n: Id, j: nat)
    requires |states| == |steps| + 1 && j < |steps|
  {
    match steps[j]
    case RunCheck(m, v) => m == n && v.inRegion && !Owner(states[j], n) && !Owner(states[j + 1], n)
    case Departure(m, from) =>
      && m == n && n in states[j].peers
      && states[j].peers[n].obj.Some? && states[j].peers[n].obj.value.closest == from
    case _ => false
  }

  function Deadline(t: Time, states: seq<Net>, steps: seq<Step>, j: nat): Time
    requires |states| == |steps| + 1 && j < |steps|
  {
    if steps[j].Departure? then 0 else states[j].clock + 5 * t
  }

  // Step i drops the deadline: an unowned object is found out of the region,
  // or the object is claimed or accepted.
  predicate Clears(states: seq<Net>, steps: seq<Step>, n: Id, i: nat)
    requires |states| == |steps| + 1 && i < |steps|
  {
    match steps[i]
    case RunCheck(m, v) =>
      m == n && if Owner(states[i], n) then InTransit(states[i], n) && !InTransit(states[i + 1], n)
                else !v.inRegion || Owner(states[i + 1], n)
    case DeliverTransfer(m, tr, joined, _) =>
      m == n == tr.newOwner && joined && n in states[i].peers && states[i].peers[n].obj.Some?
    case InsertCopy(m, _) =>
      m == n && n in states[i].peers && states[i].peers[n].obj.None? && states[i].peers[n].pending.Some?
    case _ => false
  }

  ghost predicate DueSince(states: seq<Net>, steps: seq<Step>, n: Id, j: nat, k: nat)
    requires |states| == |steps| + 1 && k <= |steps|
  {
    j < k && Starts(states, steps, n, j) && forall i :: j < i < k ==> !Clears(states, steps, n, i)
  }

  lemma DueLonger(states: seq<Net>, steps: seq<Step>, n: Id, j: nat, k: nat, next: nat)
    requires |states| == |steps| + 1 && k < |steps| && next == k + 1 && j < k
    ensures DueSince(states, steps, n, j, next) <==> DueSince(states, steps, n, j, k) && !Clears(states, steps, n, k)
  {
  }

  // What step k of a run does to the deadline.
  ghost predicate DeadlineAs(t: Time, states: seq<Net>, steps: seq<Step>, n: Id, k: nat, was: Option<Time>,
                             now: Option<Time>)
    requires |states| == |steps| + 1 && k < |steps|
  {
    if Clears(states, steps, n, k) then now == None
    else if Starts(states, steps, n, k) then
      now == if was.Some? && !steps[k].Departure? then was else Some(Deadline(t, states, steps, k))
    else now == was
  }

  lemma CheckDeadline(self: Id, t: Time, now: Time, o: Id, v: View, s: Slice)
    requires t > 0 && s.obj.Some?
    ensures var c := Check(self, t, now, o, v, s).slice;
            if s.Owns() then
              if s.InTransit() && !c.InTransit() then c.reclaimAt == None else c.reclaimAt == s.reclaimAt
            else if !v.inRegion || c.Owns() then c.reclaimAt == None
            else c.reclaimAt == if s.reclaimAt.Some? then s.reclaimAt else Some(now + 5 * t)
  {
  }

  lemma MessageDeadlines(t: Time, o: Id, net: Net, step: Step, n: Id)
    requires Enabled(net, step) && n in net.peers && (step.DeliverTransfer? || step.InsertCopy?)
    ensures var net' := Next(t, o, net, step);
            && n in net'.peers
            && var taken := if step.DeliverTransfer? then
                              step.n == n == step.tr.newOwner && step.joined && net.peers[n].obj.Some?
                            else step.n == n && net.peers[n].obj.None? && net.peers[n].pending.Some?;
               net'.peers[n].reclaimAt == if taken then None else net.peers[n].reclaimAt
  {
    AffectedIs(t, o, net, step, n);
  }

  lemma OtherDeadlines(t: Time, o: Id, net: Net, step: Step, n: Id)
    requires Enabled(net, step) && n in net.peers
    requires !step.DeliverTransfer? && !step.InsertCopy? && !(step.RunCheck? && step.n == n)
    ensures var net' := Next(t, o, net, step);
            && n in net'.peers
            && var left := step.Departure? && step.n == n && net.peers[n].obj.Some?
                           && net.peers[n].obj.value.closest == step.from;
               net'.peers[n].reclaimAt == if left then Some(0) else net.peers[n].reclaimAt
  {
    AffectedIs(t, o, net, step, n);
  }

  lemma StepDeadline(t: Time, o: Id, states: seq<Net>, steps: seq<Step>, n: Id, k: nat, next: nat)
    requires Runs(t, o, states, steps) && t > 0 && k < |steps| && next == k + 1 && n in states[k].peers
    ensures n in states[next].peers
    ensures DeadlineAs(t, states, steps, n, k, states[k].peers[n].reclaimAt, states[next].peers[n].reclaimAt)
  {
    var step := steps[k];
    if ChecksAt(steps, k, n) {
      CheckDeadline(n, t, states[k].clock, o, step.v, states[k].peers[n]);
    } else if step.DeliverTransfer? || step.InsertCopy? {
      MessageDeadlines(t, o, states[k], step, n);
    } else {
      OtherDeadlines(t, o, states[k], step, n);
    }
  }

  // The deadline at k was set by such a step, and is the earliest set since.
  ghost predicate Waiting(t: Time, states: seq<Net>, steps: seq<Step>, n: Id, k: nat)
    requires |states| == |steps| + 1 && k <= |steps|
  {
    && n in states[k].peers
    && var x := states[k].peers[n].reclaimAt;
    && (x.Some? ==> exists j: nat ::
          DueSince(states, steps, n, j, k) && x.value == Deadline(t, states, steps, j))
    && (x.Some? ==> x.value <= states[k].clock + 5 * t)
    && forall j: nat :: DueSince(states, steps, n, j, k) ==> x.Some? && x.value <= Deadline(t, states, steps, j)
  }

  lemma SetBefore(t: Time, o: Id, states: seq<Net>, steps: seq<Step>, n: Id, k: nat, next: nat)
    requires Runs(t, o, states, steps) && k < |steps| && next == k + 1 && n in states[next].peers
    requires Waiting(t, states, steps, n, k)
    requires DeadlineAs(t, states, steps, n, k, states[k].peers[n].reclaimAt, states[next].peers[n].reclaimAt)
    requires states[next].peers[n].reclaimAt.Some?
    ensures exists j: nat ::
              DueSince(states, steps, n, j, next)
              && states[next].peers[n].reclaimAt.value == Deadline(t, states, steps, j)
  {
    var was, now := states[k].peers[n].reclaimAt, states[next].peers[n].reclaimAt;
    if now == was {
      var j: nat :| DueSince(states, steps, n, j, k) && was.value == Deadline(t, states, steps, j);
      DueLonger(states, steps, n, j, k, next);
    } else {
      assert DueSince(states, steps, n, k, next);
    }
  }

  lemma DueInTime(t: Time, o: Id, states: seq<Net>, steps: seq<Step>, n: Id, k: nat, next: nat, j: nat)
    requires Runs(t, o, states, steps) && k < |steps| && next == k + 1 && n in states[next].peers
    requires Waiting(t, states, steps, n, k) && DueSince(states, steps, n, j, next)
    requires DeadlineAs(t, states, steps, n, k, states[k].peers[n].reclaimAt, states[next].peers[n].reclaimAt)
    ensures var now := states[next].peers[n].reclaimAt; now.Some? && now.value <= Deadline(t, states, steps, j)
  {
    if j < k {
      DueLonger(states, steps, n, j, k, next);
    }
  }

  lemma WaitsOneMore(t: Time, o: Id, states: seq<Net>, steps: seq<Step>, n: Id, k: nat, next: nat)
    requires Runs(t, o, states, steps) && t > 0 && k < |steps| && next == k + 1
    requires Waiting(t, states, steps, n, k)
    ensures Waiting(t, states, steps, n, next)
  {
    StepDeadline(t, o, states, steps, n, k, next);
    StepKeepsPeers(t, o, states[k], steps[k], n);
    if states[next].peers[n].reclaimAt.Some? {
      SetBefore(t, o, states, steps, n, k, next);
    }
    forall j: nat | DueSince(states, steps, n, j, next)
      ensures states[next].peers[n].reclaimAt.Some?
      ensures states[next].peers[n].reclaimAt.value <= Deadline(t, states, steps, j)
    {
      DueInTime(t, o, states, steps, n, k, next, j);
    }
  }

  lemma {:induction false} AlwaysWaiting(t: Time, o: Id, states: seq<Net>, steps: seq<Step>, n: Id, k: nat)
    requires Runs(t, o, states, steps) && t > 0 && k <= |steps|
    requires n in states[0].peers && states[0].peers[n].reclaimAt.None?
    ensures Waiting(t, states, steps, n, k)
  {
    if k > 0 {
      AlwaysWaiting(t, o, states, steps, n, k - 1);
      WaitsOneMore(t, o, states, steps, n, k - 1, k);
    }
  }

  // ---------------------------------------------------------------- objects in transit

  predicate Releases(states: seq<Net>, steps: seq<Step>, n: Id, j: nat)
    requires |states| == |steps| + 1 && j < |steps|
  {
    ChecksAt(steps, j, n) && Owner(states[j], n) && !Owner(states[j + 1], n)
  }

  predicate Claims(states: seq<Net>, steps: seq<Step>, n: Id, j: nat)
    requires |states| == |steps| + 1 && j < |steps|
  {
    ChecksAt(steps, j, n) && !Owner(states[j], n) && Owner(states[j + 1], n)
  }

  // The transit of the release at j goes on over step i: no acknowledgement, no
  // deletion, no later release, no claim, and no check 3t after the release or later.
  predicate GoesOn(t: Time, states: seq<Net>, steps: seq<Step>, n: Id, j: nat, i: nat)
    requires |states| == |steps| + 1 && i < |steps| && j < |steps|
  {
    && !(steps[i].DeliverAck? && steps[i].a.target == n)
    && steps[i] != DeleteCopy(n)
    && !Releases(states, steps, n, i)
    && (ChecksAt(steps, i, n) ==> states[i].clock < states[j].clock + 3 * t && !Claims(states, steps, n, i))
  }

  ghost predicate TransitSince(t: Time, states: seq<Net>, steps: seq<Step>, n: Id, j: nat, k: nat)
    requires |states| == |steps| + 1 && k <= |steps|
  {
    j < k && Releases(states, steps, n, j) && forall i :: j < i < k ==> GoesOn(t, states, steps, n, j, i)
  }

  lemma TransitLonger(t: Time, states: seq<Net>, steps: seq<Step>, n: Id, j: nat, k: nat, next: nat)
    requires |states| == |steps| + 1 && k < |steps| && next == k + 1 && j < k
    ensures TransitSince(t, states, steps, n, j, next) <==>
            TransitSince(t, states, steps, n, j, k) && GoesOn(t, states, steps, n, j, k)
  {
  }

  function Due(s: Slice): Time {
    if s.obj.Some? then s.obj.value.inTransit else 0
  }

  lemma CheckTransit(self: Id, t: Time, now: Time, o: Id, v: View, s: Slice)
    requires t > 0 && s.obj.Some?
    ensures var c := Check(self, t, now, o, v, s).slice;
            if s.Owns() && !c.Owns() then Due(c) == now + 3 * t
            else if Due(s) != 0 && now >= Due(s) then Due(c) == 0
            else if !s.Owns() && c.Owns() then Due(c) == 0 && v.inRegion
            else Due(c) == Due(s)
  {
  }

  lemma OtherTransit(t: Time, o: Id, net: Net, step: Step, n: Id)
    requires Enabled(net, step) && n in net.peers && !(step.RunCheck? && step.n == n)
    ensures var net' := Next(t, o, net, step);
            && n in net'.peers
            && Due(net'.peers[n]) ==
               if (step.DeliverAck? && step.a.target == n) || step == DeleteCopy(n) then 0 else Due(net.peers[n])
  {
    AffectedIs(t, o, net, step, n);
  }

  ghost predicate TransitAs(t: Time, states: seq<Net>, steps: seq<Step>, n: Id, k: nat, was: Time, now: Time)
    requires |states| == |steps| + 1 && k < |steps|
  {
    now == if Releases(states, steps, n, k) then states[k].clock + 3 * t
           else if (steps[k].DeliverAck? && steps[k].a.target == n) || steps[k] == DeleteCopy(n) then 0
           else if ChecksAt(steps, k, n) && (states[k].clock >= was || Claims(states, steps, n, k)) then 0
           else was
  }

  lemma StepTransit(t: Time, o: Id, states: seq<Net>, steps: seq<Step>, n: Id, k: nat, next: nat)
    requires Runs(t, o, states, steps) && t > 0 && k < |steps| && next == k + 1 && n in states[k].peers
    ensures n in states[next].peers
    ensures TransitAs(t, states, steps, n, k, Due(states[k].peers[n]), Due(states[next].peers[n]))
  {
    var step := steps[k];
    if ChecksAt(steps, k, n) {
      CheckTransit(n, t, states[k].clock, o, step.v, states[k].peers[n]);
    } else {
      OtherTransit(t, o, states[k], step, n);
    }
  }

  // The object is in transit exactly since such a release, and is due 3t after it.
  ghost predicate Travels(t: Time, states: seq<Net>, steps: seq<Step>, n: Id, k: nat)
    requires |states| == |steps| + 1 && k <= |steps|
  {
    && n in states[k].peers
    && var x := Due(states[k].peers[n]);
    && (x != 0 ==> exists j: nat :: TransitSince(t, states, steps, n, j, k))
    && forall j: nat :: TransitSince(t, states, steps, n, j, k) ==> x == states[j].clock + 3 * t
  }

  lemma TravelsOneMore(t: Time, o: Id, states: seq<Net>, steps: seq<Step>, n: Id, k: nat, next: nat)
    requires Runs(t, o, states, steps) && t > 0 && k < |steps| && next == k + 1
    requires Travels(t, states, steps, n, k)
    ensures Travels(t, states, steps, n, next)
  {
    StepTransit(t, o, states, steps, n, k, next);
    var was, now := Due(states[k].peers[n]), Due(states[next].peers[n]);
    if now != 0 {
      if Releases(states, steps, n, k) {
        assert TransitSince(t, states, steps, n, k, next);
      } else {
        var j: nat :| TransitSince(t, states, steps, n, j, k);
        TransitLonger(t, states, steps, n, j, k, next);
      }
    }
    forall j: nat | TransitSince(t, states, steps, n, j, next)
      ensures now == states[j].clock + 3 * t
    {
      if j < k {
        TransitLonger(t, states, steps, n, j, k, next);
      }
    }
  }

  lemma {:induction false} AlwaysTravels(t: Time, o: Id, states: seq<Net>, steps: seq<Step>, n: Id, k: nat)
    requires Runs(t, o, states, steps) && t > 0 && k <= |steps|
    requires n in states[0].peers && !InTransit(states[0], n)
    ensures Travels(t, states, steps, n, k)
  {
    if k > 0 {
      AlwaysTravels(t, o, states, steps, n, k - 1);
      TravelsOneMore(t, o, states, steps, n, k - 1, k);
    }
  }

  /** Over every run, an object is in transit at a peer exactly when the peer has
      released it and since then has had no acknowledgement, has not deleted or
      claimed it, and has made no check 3t after the release or later. */
  lemma InTransitIff(t: Time, o: Id, states: seq<Net>, steps: seq<Step>, n: Id, k: nat)
    requires Runs(t, o, states, steps) && t > 0 && k <= |steps|
    requires n in states[0].peers && !InTransit(states[0], n)
    ensures InTransit(states[k], n) <==> exists j: nat :: TransitSince(t, states, steps, n, j, k)
  {
    AlwaysTravels(t, o, states, steps, n, k);
  }

  // ---------------------------------------------------------------- claims

  lemma ClaimsWhen(self: Id, t: Time, now: Time, o: Id, v: View, s: Slice)
    requires t > 0 && s.obj.Some? && !s.Owns()
    ensures Check(self, t, now, o, v, s).slice.Owns() <==>
            || (v.inRegion && s.reclaimAt.Some? && now >= s.reclaimAt.value)
            || (Due(s) != 0 && now >= Due(s))
  {
  }

  /** Over every run, a check claims the object exactly when its transit has gone
      on for 3t, or it is in the peer's region and a deadline has passed: 5t
      after a check that found it there, or at once after its nearest peer has
      departed, unless since then an unowned check has found it elsewhere or it
      has been claimed or accepted. */
  lemma ClaimsIff(t: Time, o: Id, states: seq<Net>, steps: seq<Step>, n: Id, i: nat)
    requires Runs(t, o, states, steps) && t > 0 && ChecksAt(steps, i, n) && !Owner(states[i], n)
    requires n in states[0].peers && !InTransit(states[0], n) && states[0].peers[n].reclaimAt.None?
    ensures Owner(states[i + 1], n) <==>
            || (exists j: nat :: TransitSince(t, states, steps, n, j, i) && states[j].clock + 3 * t <= states[i].clock)
            || (steps[i].v.inRegion && exists j: nat ::
                  DueSince(states, steps, n, j, i) && Deadline(t, states, steps, j) <= states[i].clock)
  {
    AlwaysTravels(t, o, states, steps, n, i);
    AlwaysWaiting(t, o, states, steps, n, i);
    ClaimsWhen(n, t, states[i].clock, o, steps[i].v, states[i].peers[n]);
  }

  /** So without a departure or a transit a claim takes 5t: the object was found
      in the region that long before, and at every check in between that found
      it unowned. */
  lemma RegionClaimsTakeTime(t: Time, o: Id, states: seq<Net>, steps: seq<Step>, n: Id, i: nat)
    requires Runs(t, o, states, steps) && t > 0 && ChecksAt(steps, i, n) && !Owner(states[i], n)
    requires n in states[0].peers && !InTransit(states[0], n) && states[0].peers[n].reclaimAt.None?
    requires forall k :: 0 <= k < i ==> !(steps[k].Departure? && steps[k].n == n)
    requires Owner(states[i + 1], n) && !InTransit(states[i], n)
    ensures exists j: nat ::
              && j < i && ChecksAt(steps, j, n) && states[j].clock + 5 * t <= states[i].clock
              && forall k :: j <= k <= i && ChecksAt(steps, k, n) && !Owner(states[k], n) ==> steps[k].v.inRegion
  {
    ClaimsIff(t, o, states, steps, n, i);
    InTransitIff(t, o, states, steps, n, i);
    var j: nat :| DueSince(states, steps, n, j, i) && Deadline(t, states, steps, j) <= states[i].clock;
    assert !steps[j].Departure?;
    forall k | j <= k <= i && ChecksAt(steps, k, n) && !Owner(states[k], n)
      ensures steps[k].v.inRegion
    {
      assert j < k < i ==> !Clears(states, steps, n, k);
    }
  }

  // ---------------------------------------------------------------- orders

  // The order delivered at step j, before the object was known, is the one queued.
  predicate QueuesAt(states: seq<Net>, steps: seq<Step>, n: Id, j: nat)
    requires |states| == |steps| + 1 && j < |steps|
  {
    && steps[j].DeliverTransfer? && steps[j].n == n == steps[j].tr.newOwner && steps[j].joined
    && n in states[j].peers && states[j].peers[n].obj.None?
  }

  predicate InsertsAt(states: seq<Net>, steps: seq<Step>, n: Id, j: nat)
    requires |states| == |steps| + 1 && j < |steps|
  {
    steps[j].InsertCopy? && steps[j].n == n && n in states[j].peers && states[j].peers[n].obj.None?
  }

  ghost predicate QueuedSince(states: seq<Net>, steps: seq<Step>, n: Id, j: nat, k: nat)
    requires |states| == |steps| + 1 && k <= |steps|
  {
    && j < k && QueuesAt(states, steps, n, j)
    && forall i :: j < i < k ==> !QueuesAt(states, steps, n, i) && !InsertsAt(states, steps, n, i)
  }

  lemma QueuedLonger(states: seq<Net>, steps: seq<Step>, n: Id, j: nat, k: nat, next: nat)
    requires |states| == |steps| + 1 && k < |steps| && next == k + 1 && j < k
    ensures QueuedSince(states, steps, n, j, next) <==>
            QueuedSince(states, steps, n, j, k) && !QueuesAt(states, steps, n, k) && !InsertsAt(states, steps, n, k)
  {
  }

  lemma StepQueues(t: Time, o: Id, states: seq<Net>, steps: seq<Step>, n: Id, k: nat, next: nat)
    requires Runs(t, o, states, steps) && k < |steps| && next == k + 1 && n in states[k].peers
    ensures n in states[next].peers
    ensures states[next].peers[n].pending ==
            if QueuesAt(states, steps, n, k) then Some(steps[k].tr)
            else if InsertsAt(states, steps, n, k) then None
            else states[k].peers[n].pending
  {
    if !ChecksAt(steps, k, n) {
      AffectedIs(t, o, states[k], steps[k], n);
    }
  }

  // The queued order is the last one delivered since the object was last inserted.
  ghost predicate Queued(states: seq<Net>, steps: seq<Step>, n: Id, k: nat)
    requires |states| == |steps| + 1 && k <= |steps|
  {
    && n in states[k].peers
    && var x := states[k].peers[n].pending;
    && (x.Some? ==> exists j: nat :: QueuedSince(states, steps, n, j, k))
    && forall j: nat :: QueuedSince(states, steps, n, j, k) ==> x == Some(steps[j].tr)
  }

  lemma QueuedLast(t: Time, o: Id, states: seq<Net>, steps: seq<Step>, n: Id, k: nat, next: nat, j: nat)
    requires Runs(t, o, states, steps) && k < |steps| && next == k + 1
    requires Queued(states, steps, n, k) && QueuedSince(states, steps, n, j, next)
    ensures n in states[next].peers && states[next].peers[n].pending == Some(steps[j].tr)
  {
    StepQueues(t, o, states, steps, n, k, next);
    if j < k {
      QueuedLonger(states, steps, n, j, k, next);
    }
  }

  lemma QueuedOneMore(t: Time, o: Id, states: seq<Net>, steps: seq<Step>, n: Id, k: nat, next: nat)
    requires Runs(t, o, states, steps) && k < |steps| && next == k + 1
    requires Queued(states, steps, n, k)
    ensures Queued(states, steps, n, next)
  {
    StepQueues(t, o, states, steps, n, k, next);
    if states[next].peers[n].pending.Some? {
      if QueuesAt(states, steps, n, k) {
        assert QueuedSince(states, steps, n, k, next);
      } else {
        var j: nat :| QueuedSince(states, steps, n, j, k);
        QueuedLonger(states, steps, n, j, k, next);
      }
    }
    forall j: nat | QueuedSince(states, steps, n, j, next)
      ensures states[next].peers[n].pending == Some(steps[j].tr)
    {
      QueuedLast(t, o, states, steps, n, k, next, j);
    }
  }

  lemma {:induction false} AlwaysQueued(t: Time, o: Id, states: seq<Net>, steps: seq<Step>, n: Id, k: nat)
    requires Runs(t, o, states, steps) && k <= |steps|
    requires n in states[0].peers && states[0].peers[n].pending.None?
    ensures Queued(states, steps, n, k)
  {
    if k > 0 {
      AlwaysQueued(t, o, states, steps, n, k - 1);
      QueuedOneMore(t, o, states, steps, n, k - 1, k);
    }
  }

  // What an order's acceptance at step k acknowledges.
  ghost predicate Acknowledges(states: seq<Net>, k: nat, tr: Transfer)
    requires k + 1 < |states|
  {
    states[k + 1].acks - states[k].acks ==
    if tr.oldOwner == 0 then multiset{} else multiset{Ack(tr.obj, tr.oldOwner, tr.sent, states[k].clock)}
  }

  /** Over every run, an object inserted at a peer is owned there exactly when it
      comes with ownership or an order for it was delivered since the object was
      last inserted; the last such order is acknowledged. */
  lemma QueuedOrdersCount(t: Time, o: Id, states: seq<Net>, steps: seq<Step>, n: Id, k: nat)
    requires Runs(t, o, states, steps) && k < |steps| && InsertsAt(states, steps, n, k)
    requires n in states[0].peers && states[0].peers[n].pending.None?
    ensures Owner(states[k + 1], n) <==>
            steps[k].isOwner || exists j: nat :: QueuedSince(states, steps, n, j, k)
    ensures forall j: nat :: QueuedSince(states, steps, n, j, k) ==> Acknowledges(states, k, steps[j].tr)
    ensures states[k + 1].peers[n].obj.Some? && !InTransit(states[k + 1], n)
  {
    AlwaysQueued(t, o, states, steps, n, k);
  }

  /** An order delivered to the peer it names, when that has joined and knows the
      object, makes it the owner and is acknowledged; so does nothing else that
      is delivered. */
  lemma OrdersAreAccepted(t: Time, o: Id, states: seq<Net>, steps: seq<Step>, n: Id, k: nat)
    requires Runs(t, o, states, steps) && k < |steps| && steps[k].DeliverTransfer? && n in states[k].peers
    ensures var taken := steps[k].n == n == steps[k].tr.newOwner && steps[k].joined && states[k].peers[n].obj.Some?;
            && (Owner(states[k + 1], n) <==> taken || Owner(states[k], n))
            && (taken ==> Acknowledges(states, k, steps[k].tr))
            && (steps[k].n == n && !taken ==> states[k + 1].acks == states[k].acks)
            && (InTransit(states[k + 1], n) <==> InTransit(states[k], n))
  {
    AffectedIs(t, o, states[k], steps[k], n);
  }

  // ---------------------------------------------------------------- last updates

  lemma CheckRenews(self: Id, t: Time, now: Time, o: Id, v: View, s: Slice)
    requires t > 0 && s.obj.Some?
    ensures var c := Check(self, t, now, o, v, s).slice;
            c.obj.value.lastUpdate ==
            if (!s.Owns() && c.Owns()) || (s.InTransit() && !c.InTransit()) then now else s.obj.value.lastUpdate
  {
  }

  // Steps that renew an object's time at peer n.
  predicate Renews(t: Time, o: Id, net: Net, step: Step, n: Id)
    requires Enabled(net, step) && n in net.peers
  {
    match step
    case RunCheck(m, v) =>
      m == n && var c := Next(t, o, net, step).peers[n];
      (!net.peers[n].Owns() && c.Owns()) || (net.peers[n].InTransit() && !c.InTransit())
    case DeliverTransfer(m, tr, joined, _) => m == n == tr.newOwner && joined
    case InsertCopy(m, _) => m == n && net.peers[n].obj.None?
    case UpdateCopy(m, _) => m == n
    case _ => false
  }

  /** An object's time is renewed by its insertion, its updates, an acceptance
      and a claim, and by nothing else. */
  lemma TimeIsRenewedIff(t: Time, o: Id, net: Net, step: Step, n: Id)
    requires t > 0 && Enabled(net, step) && n in net.peers && Next(t, o, net, step).peers[n].obj.Some?
    ensures var now := Next(t, o, net, step).peers[n].obj.value.lastUpdate;
            if Renews(t, o, net, step, n) then now == net.clock
            else net.peers[n].obj.Some? && now == net.peers[n].obj.value.lastUpdate
  {
    if step.RunCheck? && step.n == n {
      CheckRenews(n, t, net.clock, o, step.v, net.peers[n]);
    } else {
      AffectedIs(t, o, net, step, n);
    }
  }

  /** The other steps change ownership only by an update that says so and by
      deletion, and the nearest peer only by being told it. */
  lemma OtherStepsOwn(t: Time, o: Id, net: Net, step: Step, n: Id)
    requires Enabled(net, step) && n in net.peers
    requires !step.DeliverTransfer? && !step.InsertCopy? && !(step.RunCheck? && step.n == n)
    ensures var net' := Next(t, o, net, step);
            && n in net'.peers
            && (net'.peers[n].obj.Some? <==> net.peers[n].obj.Some? && step != DeleteCopy(n))
            && (Owner(net', n) <==>
                  if step.UpdateCopy? && step.n == n && step.owner.Some? && net.peers[n].obj.Some? then step.owner.value
                  else Owner(net, n) && step != DeleteCopy(n))
            && (net'.peers[n].obj.Some? ==>
                  net'.peers[n].obj.value.closest ==
                  if step.Closest? && step.n == n then step.c else net.peers[n].obj.value.closest)
  {
    AffectedIs(t, o, net, step, n);
  }
}
