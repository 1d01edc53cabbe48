/** The bandwidth-limited network (VASTnet/net_emu_bl.cpp): its send queues and
    part payments, changed in place. */
module BandwidthSenders {
  import opened OrderedKeys
  import opened Sequences
  import opened Scheduler
  import opened SchedulerRuns

  // The place of a message found by a walk from the back of the queue.
  lemma {:induction false} AppendAt(queue: seq<Msg>, m: Msg, i: nat)
    requires i <= |queue| && (queue != [] ==> 0 < i)
    requires forall j :: i <= j < |queue| ==> queue[j].time > m.time
    requires i <= 1 || queue[i - 1].time <= m.time
    ensures Append(queue, m) == queue[..i] + [m] + queue[i..]
  {
    if i < |queue| {
      var n := |queue| - 1;
      AppendAt(queue[..n], m, i);
      assert queue[..n][..i] == queue[..i];
      assert queue[i..] == queue[..n][i..] + [queue[n]];
    } else {
      assert queue[..i] == queue;
    }
  }

  // The destinations of `keys` whose queues are empty.
  function Emptied(lines: map<Id, Line>, keys: set<Id>): set<Id> {
    set d | d in keys && LineOf(lines, d).queue == []
  }

  ghost predicate Covers(walk: seq<Id>, keys: set<Id>) {
    && (forall d :: d in keys ==> d in walk)
    && forall i :: 0 <= i < |walk| ==> walk[i] in keys
  }

  // A round is over when as many queues are empty as there are.
  lemma WhenOver(w: Round, p: Plan, keys: set<Id>)
    requires Covers(p.keys, keys) && forall d :: d in keys ==> d in w.lines
    ensures Over(w, p) <==> w.stop || |keys| <= |Emptied(w.lines, keys)|
  {
    var done := Emptied(w.lines, keys);
    SubsetSize(done, keys);
    if done != keys {
      var d :| d in keys && d !in done;
      assert d in p.keys;
    }
  }

  lemma EmptiedAfter(lines: map<Id, Line>, d: Id, l: Line, keys: set<Id>)
    requires d in keys && LineOf(lines, d).queue != []
    ensures Emptied(lines[d := l], keys) == Emptied(lines, keys) + if l.queue == [] then {d} else {}
  {
  }

  // A visit in full.
  lemma VisitIs(w: Round, p: Plan)
    requires RoundFine(w, p)
    ensures var d := p.keys[w.at];
            if Active(w.lines, p, d) then
              var (l, cost) := Scheduler.Serve(w.lines[d], Min(p.quota, p.cap - w.total));
                 Visit(w, p) == Round(w.lines[d := l], After(w.at, |p.keys|), w.total + cost, true,
                                      p.cap - (w.total + cost) < MIN_BLOCK)
            else
              Visit(w, p) == w.(at := After(w.at, |p.keys|))
  {
  }

  // The round after at most n more visits, stopping when it is over.
  function Finish(w: Round, p: Plan, n: nat): Round
    requires RoundFine(w, p)
    decreases n
  {
    if n == 0 || Over(w, p) then w
    else
      VisitKeepsFine(w, p);
      Finish(Visit(w, p), p, n - 1)
  }

  lemma {:induction false} FinishNext(w: Round, p: Plan, n: nat, m: nat)
    requires RoundFine(w, p) && !Over(w, p) && n == m + 1
    ensures RoundFine(Visit(w, p), p) && Finish(Visit(w, p), p, m) == Finish(w, p, n)
  {
    VisitKeepsFine(w, p);
  }

  lemma {:induction false} GoesOnUntil(r: Round, p: Plan, j: nat, k: nat)
    requires RoundFine(r, p) && EndsAt(r, p, k) && j <= k
    ensures Over(Walk(r, p, j), p) <==> j == k
  {
  }

  lemma {:induction false} EndsAtFinishes(r: Round, p: Plan, j: nat, k: nat, n: nat, w: Round)
    requires RoundFine(r, p) && j + n == k && EndsAt(r, p, k) && w == Walk(r, p, j)
    ensures Finish(w, p, n) == Walk(r, p, k)
    decreases n
  {
    GoesOnUntil(r, p, j, k);
    if n > 0 {
      var m, next := n - 1, j + 1;
      FinishNext(w, p, n, m);
      assert Walk(r, p, next) == Visit(w, p);
      EndsAtFinishes(r, p, next, k, m, Visit(w, p));
    }
  }

  lemma {:induction false} RoundDone(s: Sender, cap: nat, k: nat)
    requires Inv(s) && s.conns != {} && Queued(s) != {} && Share(s, cap) > 0
    requires RoundFine(RoundOf(s), PlanOf(s, cap)) && EndsAt(RoundOf(s), PlanOf(s, cap), k)
    ensures var r, p := RoundOf(s), PlanOf(s, cap);
            var w := Walk(r, p, k);
            && Cleared(s, cap, s.(lines := w.lines)) && Inv(s.(lines := w.lines))
            && w.total <= cap
            && w.total == Billed(w.lines, p, |p.keys|) - Billed(s.lines, p, |p.keys|)
  {
    RoundIsReady(s, cap);
    RoundIsPaidFor(RoundOf(s), PlanOf(s, cap), k);
    var t := s.(lines := Walk(RoundOf(s), PlanOf(s, cap), k).lines);
    assert Cleared(s, cap, t);
    StepKeepsInv(s, DoClear(cap), t);
  }

  class BandwidthSender {
    var active: bool
    var conns: set<Id>
    var sendqueue: map<Id, seq<Msg>>
    var sendspace: map<Id, nat>
    // What has been handed to each destination.
    var wire: map<Id, seq<Msg>>
    ghost var lines: map<Id, Line>
    ghost var clock: nat

    ghost function State(): Sender
      reads this
    {
      Sender(conns, lines, clock)
    }

    function QueueOf(d: Id): seq<Msg>
      reads this
    {
      if d in sendqueue then sendqueue[d] else []
    }

    function SpaceOf(d: Id): nat
      reads this
    {
      if d in sendspace then sendspace[d] else 0
    }

    function WireOf(d: Id): seq<Msg>
      reads this
    {
      if d in wire then wire[d] else []
    }

    // The tables hold what the lines say.
    ghost predicate Tied()
      reads this
    {
      (forall d :: d in sendqueue ==> d in lines) && forall d :: TiedAt(d, LineOf(lines, d))
    }

    ghost predicate TiedAt(d: Id, l: Line)
      reads this
    {
      QueueOf(d) == l.queue && SpaceOf(d) == l.space && WireOf(d) == l.delivered
    }

    ghost predicate Valid()
      reads this
    {
      Tied() && NoneEmpty() && Inv(State())
    }

    ghost predicate NoneEmpty()
      reads this
    {
      forall d :: d in sendqueue ==> sendqueue[d] != []
    }

    constructor ()
      ensures Valid() && State() == START && active
    {
      active, conns, sendqueue, sendspace, wire := true, {}, map[], map[], map[];
      lines, clock := map[], 0;
    }

    method Connect(d: Id)
      requires Valid()
      modifies this
      ensures Valid() && State() == old(State()).(conns := old(conns) + {d})
    {
      conns := conns + {d};
    }

    method CleanQueue(d: Id)
      requires Valid()
      modifies this
      ensures Valid() && State() == old(State()).(lines := Clean(old(lines), d))
    {
      CleanKeepsInv(State(), d);
      assert TiedAt(d, LineOf(lines, d));
      if d in sendqueue {
        Forget(d);
      }
    }

    method Forget(d: Id)
      requires Tied() && NoneEmpty()
      modifies `sendqueue, `sendspace, `wire, `lines
      ensures Tied() && NoneEmpty() && lines == old(lines) - {d}
    {
      forall e
        ensures old(TiedAt(e, LineOf(lines, e)))
      {
      }
      sendqueue := sendqueue - {d};
      sendspace := sendspace - {d};
      wire := wire - {d};
      lines := lines - {d};
      forall e
        ensures TiedAt(e, LineOf(lines, e))
      {
        assert e != d ==> old(TiedAt(e, LineOf(lines, e)));
      }
    }

    // `peer`: whether the other end can be found.
    method Disconnect(d: Id, peer: bool)
      requires Valid()
      modifies this
      ensures Valid() && State() == SchedulerRuns.Disconnect(old(State()), d, peer)
    {
      if d in conns && peer {
        conns := conns - {d};
        return;
      }
      CleanQueue(d);
    }

    method RemoteDisconnect(d: Id)
      requires Valid()
      modifies this
      ensures Valid() && State() == SchedulerRuns.RemoteDisconnect(old(State()), d)
    {
      conns := conns - {d};
      CleanQueue(d);
    }

    // netmsg::append
    method AppendTo(queue: seq<Msg>, m: Msg) returns (r: seq<Msg>)
      requires queue != []
      ensures r == Append(queue, m)
    {
      var i := |queue|;
      while i > 1 && queue[i - 1].time > m.time
        invariant 1 <= i <= |queue|
        invariant forall j :: i <= j < |queue| ==> queue[j].time > m.time
      {
        i := i - 1;
      }
      AppendAt(queue, m, i);
      return queue[..i] + [m] + queue[i..];
    }

    // `found`: whether the receiver's end of the connection can be found.
    method Send(d: Id, m: Msg, found: bool)
      requires Valid() && clock <= m.time
      modifies this
      ensures Valid()
      ensures State() == if active && found then SchedulerRuns.Send(old(State()), d, m) else old(State())
    {
      if !active || d !in conns || !found {
        return;
      }
      SendKeepsInv(State(), d, m);
      Store(d, m);
    }

    method Store(d: Id, m: Msg)
      requires Tied() && NoneEmpty()
      modifies `sendqueue, `lines, `clock
      ensures Tied() && NoneEmpty()
      ensures lines == old(lines)[d := Accept(LineOf(old(lines), d), m)] && clock == m.time
    {
      assert TiedAt(d, LineOf(lines, d));
      Enqueue(d, m);
      lines := lines[d := Accept(LineOf(lines, d), m)];
      clock := m.time;
      forall e
        ensures TiedAt(e, LineOf(lines, e))
      {
        assert old(TiedAt(e, LineOf(lines, e)));
      }
    }

    method Enqueue(d: Id, m: Msg)
      requires NoneEmpty()
      modifies `sendqueue
      ensures NoneEmpty()
      ensures sendqueue == old(sendqueue)[d := Append(old(QueueOf(d)), m)]
    {
      if d !in sendqueue {
        sendqueue := sendqueue[d := [m]];
        assert [] + [m] == [m];
      } else {
        var queue := AppendTo(sendqueue[d], m);
        sendqueue := sendqueue[d := queue];
      }
    }

    // One visit to a connected destination with a message waiting.
    method ServeOne(d: Id, quota: nat) returns (cost: nat)
      requires Tied() && d in sendqueue && sendqueue[d] != [] && lines[d].queue == sendqueue[d]
      modifies `sendqueue, `sendspace, `wire, `lines
      ensures Tied()
      ensures d in old(lines) && lines == old(lines)[d := Scheduler.Serve(old(lines)[d], quota).0]
      ensures cost == Scheduler.Serve(old(lines)[d], quota).1
      ensures d in sendqueue && sendqueue == old(sendqueue)[d := sendqueue[d]]
    {
      var l, head := LineOf(lines, d), sendqueue[d][0];
      assert TiedAt(d, l);
      var due := head.size - SpaceOf(d);
      if 0 <= due <= quota {
        cost := due;
        Settle(d, sendqueue[d][1..], 0, WireOf(d) + [head], Scheduler.Serve(l, quota).0);
      } else {
        cost := quota;
        Settle(d, sendqueue[d], SpaceOf(d) + cost, WireOf(d), Scheduler.Serve(l, quota).0);
      }
    }

    // Destination d's entries in all three tables.
    method Settle(d: Id, queue: seq<Msg>, space: nat, out: seq<Msg>, ghost l: Line)
      requires Tied() && d in lines && l.queue == queue && l.space == space && l.delivered == out
      modifies `sendqueue, `sendspace, `wire, `lines
      ensures Tied() && lines == old(lines)[d := l] && sendqueue == old(sendqueue)[d := queue]
    {
      sendqueue, sendspace, wire := sendqueue[d := queue], sendspace[d := space], wire[d := out];
      lines := lines[d := l];
      assert forall e :: LineOf(lines, e) == if e == d then l else LineOf(old(lines), e);
    }

    // A destination with nothing queued is taken off the queue.
    method RemoveEmpty(removed: set<Id>)
      requires Tied()
      requires removed == Emptied(lines, sendqueue.Keys)
      modifies `sendqueue
      ensures Tied() && NoneEmpty()
    {
      SameQueues();
      sendqueue := sendqueue - removed;
      assert forall e :: QueueOf(e) == old(QueueOf(e));
    }

    lemma QueuedIs()
      requires Valid()
      ensures sendqueue.Keys == Queued(State())
    {
      forall d
        ensures d in sendqueue <==> d in Queued(State())
      {
        assert QueueOf(d) == LineOf(lines, d).queue;
      }
    }

    lemma SameQueues()
      requires Tied()
      ensures forall d :: d in sendqueue ==> d in lines && lines[d].queue == sendqueue[d]
    {
      forall d | d in sendqueue
        ensures lines[d].queue == sendqueue[d]
      {
        assert QueueOf(d) == LineOf(lines, d).queue;
      }
    }

    // The body of the round's loop.
    method VisitAt(d: Id, cap: nat, quota: nat, total: nat, removed: set<Id>)
      returns (total': nat, removed': set<Id>, stop: bool)
      requires Tied() && total <= cap && d in sendqueue && d in lines
      requires removed == Emptied(lines, sendqueue.Keys)
      modifies `sendqueue, `sendspace, `wire, `lines
      ensures Tied() && sendqueue.Keys == old(sendqueue.Keys) && removed' == Emptied(lines, sendqueue.Keys)
      ensures if old(lines)[d].queue != [] && d in conns then
                var (l, cost) := Scheduler.Serve(old(lines)[d], Min(quota, cap - total));
                   lines == old(lines)[d := l] && total' == total + cost && stop == (cap - total' < MIN_BLOCK)
              else
                lines == old(lines) && total' == total && !stop
    {
      SameQueues();
      total', removed', stop := total, removed, false;
      if sendqueue[d] != [] && d in conns {
        EmptiedAfter(lines, d, Scheduler.Serve(lines[d], Min(quota, cap - total)).0, sendqueue.Keys);
        var cost := ServeOne(d, Min(quota, cap - total));
        SameQueues();
        assert sendqueue.Keys == old(sendqueue.Keys);
        if sendqueue[d] == [] {
          removed' := removed + {d};
        }
        total' := total + cost;
        stop := MIN_BLOCK > cap - total';
      }
    }

    // How the loop's variables stand in the round: `left` visits from w to e.
    ghost predicate InRound(at: nat, total: nat, stop: bool, removed: set<Id>, p: Plan, w: Round, left: nat, e: Round)
      reads this
    {
      && RoundFine(w, p) && Finish(w, p, left) == e
      && Tied() && Covers(p.keys, sendqueue.Keys) && p.live == conns
      && lines == w.lines && at == w.at && total == w.total && stop == w.stop
      && removed == Emptied(lines, sendqueue.Keys)
    }

    // One turn of the loop, in the round's terms.
    method Turn(at: nat, total: nat, removed: set<Id>, keys: seq<Id>, cap: nat, quota: nat,
                ghost w: Round, ghost v: Round)
      returns (at': nat, total': nat, removed': set<Id>, stop: bool)
      requires var p := Plan(conns, cap, quota, keys); RoundFine(w, p) && v == Visit(w, p)
      requires Tied() && lines == w.lines && at == w.at && total == w.total && !w.stop
      requires Covers(keys, sendqueue.Keys) && removed == Emptied(lines, sendqueue.Keys)
      modifies `sendqueue, `sendspace, `wire, `lines
      ensures Tied() && Covers(keys, sendqueue.Keys) && removed' == Emptied(lines, sendqueue.Keys)
      ensures lines == v.lines && at' == v.at && total' == v.total && stop == v.stop
    {
      SameQueues();
      VisitIs(w, Plan(conns, cap, quota, keys));
      total', removed', stop := VisitAt(keys[at], cap, quota, total, removed);
      at' := at + 1;
      if at' == |keys| {
        at' := 0;
      }
    }

    // What the turn does to the round that it is part of.
    lemma TurnIs(at: nat, total: nat, removed: set<Id>, p: Plan, w: Round, left: nat, e: Round)
      returns (v: Round, left': nat)
      requires InRound(at, total, false, removed, p, w, left, e) && |sendqueue| > |removed| && Over(e, p)
      ensures v == Visit(w, p) && left' < left
      ensures RoundFine(v, p) && Finish(v, p, left') == e
    {
      OverIsAllEmptied(w, p);
      v, left' := Visit(w, p), left - 1;
      FinishNext(w, p, left, left');
    }

    method NextTurn(at: nat, total: nat, removed: set<Id>, keys: seq<Id>, cap: nat, quota: nat,
                    ghost w: Round, ghost left: nat, ghost e: Round)
      returns (at': nat, total': nat, removed': set<Id>, stop: bool, ghost v: Round, ghost left': nat)
      requires InRound(at, total, false, removed, Plan(conns, cap, quota, keys), w, left, e)
      requires |sendqueue| > |removed| && Over(e, Plan(conns, cap, quota, keys))
      modifies `sendqueue, `sendspace, `wire, `lines
      ensures left' < left
      ensures InRound(at', total', stop, removed', Plan(conns, cap, quota, keys), v, left', e)
    {
      v, left' := TurnIs(at, total, removed, Plan(conns, cap, quota, keys), w, left, e);
      at', total', removed', stop := Turn(at, total, removed, keys, cap, quota, w, v);
    }

    lemma {:induction false} RoundBegins(p: Plan, n: nat, e: Round)
      requires Tied() && NoneEmpty() && Covers(p.keys, sendqueue.Keys) && p.live == conns
      requires var r := Round(lines, 0, 0, false, false); RoundFine(r, p) && Finish(r, p, n) == e
      ensures InRound(0, 0, false, {}, p, Round(lines, 0, 0, false, false), n, e)
    {
      SameQueues();
      assert Emptied(lines, sendqueue.Keys) == {};
    }

    lemma RoundIsDone(at: nat, total: nat, stop: bool, removed: set<Id>, p: Plan, w: Round, left: nat, e: Round)
      requires InRound(at, total, stop, removed, p, w, left, e) && (stop || |sendqueue| <= |removed|)
      ensures Tied() && removed == Emptied(lines, sendqueue.Keys) && lines == e.lines && total == e.total
    {
      OverIsAllEmptied(w, p);
    }

    // The round's loop.
    method Serve(keys: seq<Id>, cap: nat, quota: nat, ghost n: nat, ghost w0: Round, ghost e: Round)
      returns (total: nat, removed: set<Id>)
      requires InRound(0, 0, false, {}, Plan(conns, cap, quota, keys), w0, n, e)
      requires Over(e, Plan(conns, cap, quota, keys))
      modifies `sendqueue, `sendspace, `wire, `lines
      ensures Tied() && removed == Emptied(lines, sendqueue.Keys)
      ensures lines == e.lines && total == e.total
    {
      removed, total := {}, 0;
      var at: nat, stop := 0, false;
      ghost var w, left := w0, n;
      while |sendqueue| > |removed| && !stop
        invariant InRound(at, total, stop, removed, Plan(conns, cap, quota, keys), w, left, e)
        decreases left
      {
        at, total, removed, stop, w, left := NextTurn(at, total, removed, keys, cap, quota, w, left, e);
      }
      RoundIsDone(at, total, stop, removed, Plan(conns, cap, quota, keys), w, left, e);
    }

    lemma OverIsAllEmptied(w: Round, p: Plan)
      requires Tied() && lines == w.lines && Covers(p.keys, sendqueue.Keys)
      ensures Over(w, p) <==> w.stop || |sendqueue| <= |Emptied(lines, sendqueue.Keys)|
    {
      SameQueues();
      WhenOver(w, p, sendqueue.Keys);
    }

    // The round that is about to be run, and what it comes to.
    lemma RoundPlanned(cap: nat) returns (k: nat, r: Round, p: Plan, e: Round)
      requires Valid() && Queued(State()) != {} && conns != {} && Share(State(), cap) > 0
      requires CanEnd(RoundOf(State()), PlanOf(State(), cap))
      ensures p == PlanOf(State(), cap) && p.keys == Ascending(sendqueue.Keys)
      ensures InRound(0, 0, false, {}, p, r, k, e) && Over(e, p)
      ensures Cleared(State(), cap, State().(lines := e.lines)) && Inv(State().(lines := e.lines))
      ensures e.total <= cap && e.total == Billed(e.lines, p, |p.keys|) - Billed(lines, p, |p.keys|)
    {
      QueuedIs();
      r, p := RoundOf(State()), PlanOf(State(), cap);
      RoundIsReady(State(), cap);
      k := RoundEnds(r, p);
      e := Walk(r, p, k);
      EndsAtFinishes(r, p, 0, k, k, r);
      assert forall i :: 0 <= i < |p.keys| ==> p.keys[i] in p.keys;
      RoundBegins(p, k, e);
      RoundDone(State(), cap, k);
    }

    // The round itself, and the removal of the queues it has emptied.
    method RunRound(keys: seq<Id>, cap: nat, quota: nat, ghost n: nat, ghost w: Round, ghost e: Round)
      returns (total: nat)
      requires InRound(0, 0, false, {}, Plan(conns, cap, quota, keys), w, n, e)
      requires Over(e, Plan(conns, cap, quota, keys))
      modifies `sendqueue, `sendspace, `wire, `lines
      ensures Tied() && NoneEmpty() && lines == e.lines && total == e.total
    {
      var removed: set<Id>;
      total, removed := Serve(keys, cap, quota, n, w, e);
      RemoveEmpty(removed);
    }

    /** A round over all queued destinations.  As the caller must see to, the cap
        is not to be shared among no connections, and the round can end. */
    method ClearQueue(cap: nat) returns (total: nat)
      requires Valid()
      requires Queued(State()) != {} ==> conns != {}
      requires Queued(State()) != {} && Share(State(), cap) > 0 ==> CanEnd(RoundOf(State()), PlanOf(State(), cap))
      modifies `sendqueue, `sendspace, `wire, `lines
      ensures Valid() && Cleared(old(State()), cap, State())
      ensures total <= cap
      ensures old(Queued(State())) != {} ==>
                var p := PlanOf(old(State()), cap);
                total == Billed(lines, p, |p.keys|) - Billed(old(lines), p, |p.keys|)
    {
      ghost var s := State();
      QueuedIs();
      assert |sendqueue| == |Queued(s)|;
      if |sendqueue| == 0 {
        return 0;
      }
      var quota := (cap / Min(|conns|, |sendqueue|)) % UINT32;
      assert quota == Share(s, cap);
      if quota == 0 {
        return 0;
      }
      var keys := Ascending(sendqueue.Keys);
      ghost var k, r, p, e := RoundPlanned(cap);
      assert p == Plan(conns, cap, quota, keys);
      total := RunRound(keys, cap, quota, k, r, e);
      assert State() == s.(lines := e.lines);
    }
  }
}
