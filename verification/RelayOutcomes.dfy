/** What a relay client records about the relays it learns of, whom it contacts,
    and how its join state moves. */
module RelayOutcomes {
  import opened Options
  import opened Sequences
  import opened Relay
  import opened RelayRuns

  // ---------------------------------------------------------------- what is recorded

  lemma PutFirst(first: Entry, rest: seq<Entry>, e: Entry, k: nat)
    requires k <= |rest|
    ensures var index, i := [first] + rest, k + 1;
            [first] + (rest[..k] + [e] + rest[k..]) == index[..i] + [e] + index[i..]
  {
  }

  /** An entry goes in front of the first farther one, behind its equals. */
  lemma {:induction false} PlacedBehindEquals(index: seq<Entry>, e: Entry) returns (i: nat)
    requires Sorted(index)
    ensures i <= |index| && Place(index, e) == index[..i] + [e] + index[i..]
    ensures forall j :: 0 <= j < |index| ==> (index[j].dist <= e.dist <==> j < i)
  {
    i := 0;
    if index != [] && index[0].dist <= e.dist {
      var first, rest := index[0], index[1..];
      var k := PlacedBehindEquals(rest, e);
      i := k + 1;
      PutFirst(first, rest, e, k);
      assert index == [first] + rest;
      forall j | 0 <= j < |index|
        ensures index[j].dist <= e.dist <==> j < i
      {
        assert j > 0 ==> index[j] == rest[j - 1];
      }
    }
  }

  /** Learning of a relay records it, with the present time, and puts it into the
      index under its distance from this node, in place of any entry it had;
      nothing else changes. */
  lemma AddRecords(r: Relays, metric: Metric, node: Node, now: nat)
    requires Inv(r)
    ensures var n := Add(r, metric, node, now);
            && n == r.(table := n.table, index := n.index)
            && n.table == (if node.id == 0 then r.table else r.table[node.id := Node(node.id, node.center, now)])
            && forall e :: e in n.index <==>
                 if node.id != 0 && e.id == node.id then e.dist == metric(node.center, r.self.center) else e in r.index
  {
    if node.id != UNASSIGNED {
      var cleared := if node.id in r.table then Drop(r.index, node.id) else r.index;
      var e := Entry(metric(node.center, r.self.center), node.id);
      PlaceMembers(cleared, e);
      DropMembers(r.index, node.id);
      assert forall x :: x in cleared ==> x.id != node.id by {
        forall i | 0 <= i < |cleared|
          ensures cleared[i].id != node.id
        {
          CountAt(cleared, i);
          DropCounts(r.index, node.id, node.id);
        }
      }
    }
  }

  // Every entry is the present distance of a relay on record.
  ghost predicate Measured(r: Relays, metric: Metric) {
    forall e :: e in r.index ==> e.id in r.table && e.dist == metric(r.table[e.id].center, r.self.center)
  }

  lemma AddMeasures(r: Relays, metric: Metric, node: Node, now: nat)
    requires Inv(r) && Measured(r, metric)
    ensures Measured(Add(r, metric, node, now), metric)
  {
    AddRecords(r, metric, node, now);
  }

  lemma RemoveMeasures(r: Relays, metric: Metric, id: Id)
    requires Inv(r) && Measured(r, metric)
    ensures Measured(Remove(r, id), metric)
  {
    RemoveIs(r, id);
    DropMembers(r.index, id);
    var n := Remove(r, id);
    forall i | 0 <= i < |n.index|
      ensures n.index[i].id in n.table
    {
      CountAt(n.index, i);
    }
  }

  lemma {:induction false} AddFirstMeasures(r: Relays, metric: Metric, nodes: seq<Node>, n: nat, now: nat)
    requires Inv(r) && Measured(r, metric) && n <= |nodes|
    ensures Measured(AddFirst(r, metric, nodes, n, now), metric)
  {
    if n > 0 {
      AddFirstMeasures(r, metric, nodes, n - 1, now);
      AddFirstKeepsInv(r, metric, nodes, n - 1, now);
      AddMeasures(AddFirst(r, metric, nodes, n - 1, now), metric, nodes[n - 1], now);
    }
  }

  lemma {:induction false} RemoveFirstMeasures(r: Relays, metric: Metric, ids: seq<Id>, n: nat)
    requires Inv(r) && Measured(r, metric) && n <= |ids|
    ensures Measured(RemoveFirst(r, ids, n), metric)
  {
    if n > 0 {
      RemoveFirstMeasures(r, metric, ids, n - 1);
      RemoveFirstKeepsInv(r, ids, n - 1);
      RemoveMeasures(RemoveFirst(r, ids, n - 1), metric, ids[n - 1]);
    }
  }

  lemma SendToNextMeasures(r: Relays, metric: Metric, fails: bool)
    requires Inv(r) && Measured(r, metric)
    ensures Measured(SendToNext(r, fails), metric)
  {
    ContactIsKnown(r);
    var r1 := ContactNext(r);
    if r1.contact.Some? {
      RemoveMeasures(r1, metric, r1.contact.value);
    }
  }

  lemma CleanupMeasures(r: Relays, metric: Metric, limit: nat)
    requires Inv(r) && Measured(r, metric)
    ensures Cleanup(r, limit).Some? && Measured(Cleanup(r, limit).value, metric)
  {
    CleanupKeepsInv(r, limit);
    if limit != 0 && r.state == Joined && |r.index| > limit {
      RemoveFirstMeasures(r, metric, Surplus(r, limit).value, |Surplus(r, limit).value|);
    }
  }

  lemma TickMeasures(r: Relays, metric: Metric, t: Tick, limit: nat)
    requires Inv(r) && Measured(r, metric)
    ensures PostHandling(r, metric, t, limit).Some?
    ensures Measured(PostHandling(r, metric, t, limit).value, metric)
  {
    AddFirstMeasures(r, metric, t.entries, |t.entries|, t.now);
    AddFirstKeepsInv(r, metric, t.entries, |t.entries|, t.now);
    var r0 := if r.table == map[] then AddAll(r, metric, t.entries, t.now) else r;
    RemoveFirstMeasures(r0, metric, t.pingFailed, |t.pingFailed|);
    PingKeepsInv(r, metric, t);
    var r1 := Ping(r, metric, t);
    SendToNextMeasures(r1, metric, t.fails);
    AdvanceKeepsInv(r1, t);
    CleanupMeasures(Advance(r1, t), metric, limit);
  }

  lemma StepMeasures(r: Relays, metric: Metric, step: Step)
    requires Inv(r) && Measured(r, metric) && !step.Move? && !step.Locate?
    ensures Apply(r, metric, step).Some? && Measured(Apply(r, metric, step).value, metric)
  {
    match step
    case Learn(nodes, now) => AddFirstMeasures(r, metric, nodes, |nodes|, now);
    case Lose(id) => RemoveMeasures(r, metric, id);
    case Send(failed) => RemoveFirstMeasures(r, metric, failed, |failed|);
    case Found(relay, asRelay, fails, now) => {
      AddMeasures(r, metric, relay, now);
      AddKeepsInv(r, metric, relay, now);
      var r1 := Add(r, metric, relay, now);
      AddMeasures(r1, metric, r1.self, now);
      AddKeepsInv(r1, metric, r1.self, now);
      SendToNextMeasures(r1, metric, fails);
      SendToNextMeasures(Add(r1, metric, r1.self, now), metric, fails);
    }
    case Answered(_, _, _, failed, fails) => {
      SendToNextMeasures(r, metric, fails);
      RemoveFirstMeasures(r, metric, failed, |failed|);
    }
    case Ticks(t, limit) => TickMeasures(r, metric, t, limit);
  }

  /** Over every run in which no position changes, every known relay is in the
      index under its distance from this node. */
  lemma {:induction false} IndexIsMeasured(rs: seq<Relays>, metric: Metric, steps: seq<Step>, n: nat)
    requires Runs(rs, metric, steps) && n < |rs|
    requires forall k :: 0 <= k < n ==> !steps[k].Move? && !steps[k].Locate?
    ensures Measured(rs[n], metric)
  {
    if n > 0 {
      IndexIsMeasured(rs, metric, steps, n - 1);
      RunKeepsInv(rs, metric, steps, n - 1);
      StepMeasures(rs[n - 1], metric, steps[n - 1]);
    }
  }

  // Where an entry of a relay on record stands.
  lemma EntryOf(r: Relays, id: Id) returns (i: nat)
    requires Inv(r) && id in r.table
    ensures i < |r.index| && r.index[i].id == id
  {
    CountIsMembership(r.index, id);
    assert CountOf(r.index, id) == 1;
    i := IndexOf(r.index, id);
  }

  /** A relay's new position is recorded, but its place in the index is the old
      one: the index stays right exactly when its distance is what it was. */
  lemma StaleAfterMoveIff(r: Relays, metric: Metric, from: Id, center: Pos)
    requires Inv(r) && Measured(r, metric)
    ensures Measured(Moved(r, from, center), metric) <==>
            (from in r.table ==> metric(center, r.self.center) == metric(r.table[from].center, r.self.center))
  {
    if from in r.table {
      var i := EntryOf(r, from);
      assert r.index[i] in r.index;
      assert Moved(r, from, center).table[from].center == center;
    }
  }

  /** Neither does a new position of this node's own change the index. */
  lemma StaleAfterLocateIff(r: Relays, metric: Metric, center: Pos)
    requires Inv(r) && Measured(r, metric)
    ensures Measured(Located(r, center), metric) <==>
            forall id :: id in r.table ==>
              metric(r.table[id].center, center) == metric(r.table[id].center, r.self.center)
  {
    forall id | id in r.table
      ensures exists e :: e in r.index && e.id == id
    {
      var i := EntryOf(r, id);
      assert r.index[i] in r.index;
    }
    assert Located(r, center).self.center == center;
  }

  /** There a clean-up drops no relay that is nearer to this node than one it
      keeps, the current one aside. */
  lemma CleanupDropsFarthest(r: Relays, metric: Metric, limit: nat, kept: Id, dropped: Id)
    requires Inv(r) && Measured(r, metric) && r.state == Joined && 0 < limit < |r.table|
    requires Cleanup(r, limit).Some? && kept in Cleanup(r, limit).value.table && !IsCurrent(r, kept)
    requires dropped in r.table && dropped !in Cleanup(r, limit).value.table && kept in r.table
    ensures metric(r.table[kept].center, r.self.center) <= metric(r.table[dropped].center, r.self.center)
  {
    CleanupKeepsNearest(r, limit);
    var i := EntryOf(r, kept);
    var j := EntryOf(r, dropped);
    assert r.index[i] in r.index && r.index[j] in r.index;
  }

  // ---------------------------------------------------------------- who is contacted

  function Contacted(r: Relays, k: nat): Relays {
    if k == 0 then r else ContactNext(Contacted(r, k - 1))
  }

  // k places on from place p, going round once at most.
  function OnFrom(p: nat, k: nat, n: nat): nat
    requires p < n && k <= n
  {
    if p + k < n then p + k else p + k - n
  }

  lemma NextAfter(r: Relays, p: nat)
    requires Inv(r) && p < |r.index| && r.contact == Some(r.index[p].id)
    ensures NextContact(r) == Some(r.index[OnFrom(p, 1, |r.index|)].id)
  {
    var i := IndexOf(r.index, r.index[p].id);
    if i < p {
      ListedOnce(r.index, r.table.Keys, i, p);
    }
  }

  lemma OneMoreContact(r: Relays, m: Relays, q: nat)
    requires Inv(r) && q < |r.index| && m == r.(contact := Some(r.index[q].id))
    ensures ContactNext(m) == r.(contact := Some(r.index[OnFrom(q, 1, |r.index|)].id))
  {
    CountAt(r.index, q);
    NextAfter(m, q);
  }

  /** Successive calls contact one relay after the other in distance order, going
      round: after as many calls as there are relays everything is as before. */
  lemma {:induction false} GoesRound(r: Relays, p: nat, k: nat)
    requires Inv(r) && p < |r.index| && k <= |r.index| && r.contact == Some(r.index[p].id)
    ensures Contacted(r, k) == r.(contact := Some(r.index[OnFrom(p, k, |r.index|)].id))
    ensures k == |r.index| ==> Contacted(r, k) == r
  {
    if k > 0 {
      var before := k - 1;
      GoesRound(r, p, before);
      OneMoreContact(r, Contacted(r, before), OnFrom(p, before, |r.index|));
    }
  }

  // The place of the first one contacted.
  lemma FirstContact(r: Relays) returns (p: nat)
    requires Inv(r) && r.index != []
    ensures p < |r.index| && ContactNext(r).contact == Some(r.index[p].id)
    ensures r.contact.None? ==> p == 0
  {
    if r.contact.None? {
      p := 0;
    } else {
      var q := EntryOf(r, r.contact.value);
      NextAfter(r, q);
      p := OnFrom(q, 1, |r.index|);
    }
  }

  lemma {:induction false} ContactedFrom(r: Relays, k: nat, next: nat)
    requires next == k + 1
    ensures Contacted(r, next) == Contacted(ContactNext(r), k)
  {
    if k > 0 {
      ContactedFrom(r, k - 1, k);
    }
  }

  // The relay contacted by call number `next`, when the first goes to place p.
  lemma {:induction false} ContactedAt(r: Relays, p: nat, k: nat, next: nat)
    requires Inv(r) && p < |r.index| && ContactNext(r).contact == Some(r.index[p].id)
    requires next == k + 1 && k < |r.index|
    ensures Contacted(r, next).contact == Some(r.index[OnFrom(p, k, |r.index|)].id)
  {
    var r1 := ContactNext(r);
    CountAt(r.index, p);
    assert Inv(r1);
    ContactedFrom(r, k, next);
    GoesRound(r1, p, k);
  }

  lemma SamePlace(r: Relays, i: nat, j: nat)
    requires Inv(r) && i < |r.index| && j < |r.index| && r.index[i].id == r.index[j].id
    ensures i == j
  {
    if i < j {
      ListedOnce(r.index, r.table.Keys, i, j);
    } else if j < i {
      ListedOnce(r.index, r.table.Keys, j, i);
    }
  }

  /** So as many calls as there are relays contact each of them exactly once, in
      distance order from the nearest when nobody has been contacted yet. */
  lemma EachIsContactedOnce(r: Relays, id: Id) returns (k: nat)
    requires Inv(r) && id in r.table
    ensures 1 <= k <= |r.table| && Contacted(r, k).contact == Some(id)
    ensures forall j :: 1 <= j <= |r.table| && Contacted(r, j).contact == Some(id) ==> j == k
    ensures r.contact.None? ==> k <= |r.index| && r.index[k - 1].id == id
  {
    ListSize(r.index, r.table.Keys);
    var i := EntryOf(r, id);
    var p := FirstContact(r);
    var n := |r.index|;
    k := if i >= p then i - p + 1 else i + n - p + 1;
    ContactedAt(r, p, k - 1, k);
    forall j | 1 <= j <= n && Contacted(r, j).contact == Some(id)
      ensures j == k
    {
      ContactedAt(r, p, j - 1, j);
      SamePlace(r, i, OnFrom(p, j - 1, n));
    }
  }

  // ---------------------------------------------------------------- joining

  /** A message to the next relay makes it the contact; it is forgotten exactly
      when it cannot be sent to. */
  lemma {:induction false} NextIsTried(r: Relays, fails: bool)
    requires Inv(r) && r.table != map[]
    ensures Contacted(r, 1).contact.Some?
    ensures var n, next := SendToNext(r, fails), Contacted(r, 1).contact.value;
            && next in r.table && Inv(n)
            && n.table == (if fails then r.table - {next} else r.table)
            && n.contact == (if fails then None else Some(next))
            && (n.state == r.state && n.curr == r.curr <==> !fails || !IsCurrent(r, next))
            && (fails && IsCurrent(r, next) ==> n.state == Querying && n.curr == Nobody)
  {
    assert Contacted(r, 1) == ContactNext(Contacted(r, 0));
    ContactIsKnown(r);
    SendToNextKeepsInv(r, fails);
    var r1 := ContactNext(r);
    RemoveIs(r1, r1.contact.value);
  }

  /** An answer joins this node exactly when it had not joined and is to be a
      relay itself, or is accepted by a relay it knows; it is then joined to
      itself, or to that relay.  A refusal moves it on to the next relay. */
  lemma {:induction false} AnswerJoinsIff(r: Relays, from: Id, asRelay: bool, accepted: bool, failed: seq<Id>,
                                          fails: bool)
    requires Inv(r) && from != UNASSIGNED
    ensures var n := JoinReply(r, from, asRelay, accepted, failed, fails);
            if r.state == Joined then n == r
            else
              && (n.state == Joined <==> asRelay || (accepted && from in r.table))
              && (asRelay ==> n.curr == Myself && n.table == RemoveAll(r, failed).table)
              && (n.state == Joined && !asRelay ==> n.curr == Known(from) && n.table == r.table)
              && (n.state == Joined ==> n.contact == None)
              && (n.state != Joined && !accepted && r.table != map[] ==>
                    && Contacted(r, 1).contact.Some?
                    && n.table == if fails then r.table - {Contacted(r, 1).contact.value} else r.table)
  {
    RemoveFirstKeepsInv(r, failed, |failed|);
    if r.table != map[] {
      NextIsTried(r, fails);
    }
  }

  // This node's current relay is this known one.
  predicate Loses(r: Relays, id: Id) {
    id in r.table && IsCurrent(r, id)
  }

  // m is r after it has forgotten these.
  ghost predicate Forgot(r: Relays, m: Relays, gone: set<Id>) {
    && Inv(m) && m.self == r.self && m.table == r.table - gone
    && if exists id :: id in gone && Loses(r, id) then m.state == Querying && m.curr == Nobody
       else m.state == r.state && m.curr == r.curr
  }

  lemma ForgetOne(r: Relays, m: Relays, gone: set<Id>, id: Id, all: set<Id>)
    requires Forgot(r, m, gone) && all == gone + {id}
    ensures Forgot(r, Remove(m, id), all)
  {
    RemoveIs(m, id);
    assert r.table - gone - {id} == r.table - all;
    if Loses(m, id) {
      assert Loses(r, id) && id in all;
    }
  }

  lemma {:induction false} ForgetsFirst(r: Relays, ids: seq<Id>, n: nat)
    requires Inv(r) && n <= |ids|
    ensures Forgot(r, RemoveFirst(r, ids, n), FirstOf(ids, n))
  {
    if n == 0 {
      assert r.table - {} == r.table;
    } else {
      var before := n - 1;
      ForgetsFirst(r, ids, before);
      FirstOfGrows(ids, before);
      ForgetOne(r, RemoveFirst(r, ids, before), FirstOf(ids, before), ids[before], FirstOf(ids, n));
    }
  }

  // m is r after it has learned of these.
  ghost predicate Learned(r: Relays, m: Relays, ids: set<Id>) {
    Inv(m) && m == r.(table := m.table, index := m.index) && m.table.Keys == r.table.Keys + (ids - {0})
  }

  lemma LearnOne(r: Relays, metric: Metric, m: Relays, ids: set<Id>, node: Node, now: nat, all: set<Id>)
    requires Learned(r, m, ids) && all == ids + {node.id}
    ensures Learned(r, Add(m, metric, node, now), all)
  {
    AddRecords(m, metric, node, now);
    AddKeepsInv(m, metric, node, now);
  }

  function IdsOf(nodes: seq<Node>, n: nat): set<Id>
    requires n <= |nodes|
  {
    if n == 0 then {} else IdsOf(nodes, n - 1) + {nodes[n - 1].id}
  }

  lemma {:induction false} LearnsFirst(r: Relays, metric: Metric, nodes: seq<Node>, n: nat, now: nat)
    requires Inv(r) && n <= |nodes|
    ensures Learned(r, AddFirst(r, metric, nodes, n, now), IdsOf(nodes, n))
  {
    if n > 0 {
      var before := n - 1;
      LearnsFirst(r, metric, nodes, before, now);
      LearnOne(r, metric, AddFirst(r, metric, nodes, before, now), IdsOf(nodes, before), nodes[before], now,
               IdsOf(nodes, n));
    }
  }

  /** A ping, when due, learns the entry points if no relay is known, and forgets
      exactly the relays that could not be sent to; the current relay is lost
      exactly when it is one of these. */
  lemma PingOutcome(r: Relays, metric: Metric, t: Tick) returns (m: Relays)
    requires Inv(r)
    ensures Learned(r, m, if t.pingDue && r.table == map[] then IdsOf(t.entries, |t.entries|) else {})
    ensures Forgot(m, Ping(r, metric, t), if t.pingDue then FirstOf(t.pingFailed, |t.pingFailed|) else {})
  {
    m := r;
    if t.pingDue {
      if r.table == map[] {
        LearnsFirst(r, metric, t.entries, |t.entries|, t.now);
        m := AddAll(r, metric, t.entries, t.now);
      }
      ForgetsFirst(m, t.pingFailed, |t.pingFailed|);
    } else {
      assert r.table - {} == r.table;
    }
  }

  /** A tick makes a node join itself exactly when it is absent and knows no
      relay, and begin to query when it is absent, knows one and has its place;
      while it queries, and a query is due, the next relay is tried. */
  lemma {:induction false} AdvanceOutcome(r: Relays, t: Tick)
    requires Inv(r)
    ensures var n := Advance(r, t);
            && (n.state == Joined <==> r.state == Joined || (r.state == Absent && r.table == map[]))
            && (r.state == Absent && r.table == map[] ==> n.curr == Myself)
            && (n.state == Querying <==> r.state == Querying || (r.state == Absent && r.table != map[] && t.located))
            && if r.state == Querying && t.queryDue && r.table != map[] then
                 Contacted(r, 1).contact.Some? &&
                 var next := Contacted(r, 1).contact;
                 && n.contact == (if t.fails then None else next)
                 && n.table == if t.fails then r.table - {next.value} else r.table
               else
                 n.table == r.table && n.index == r.index
  {
    ListSize(r.index, r.table.Keys);
    if r.table != map[] {
      NextIsTried(r, t.fails);
    }
  }

  /** The answer to its query makes a node learn of that relay, and of itself if
      it is to be one, and then try the next relay. */
  lemma FoundOutcome(r: Relays, metric: Metric, relay: Node, asRelay: bool, fails: bool, now: nat) returns (m: Relays)
    requires Inv(r) && relay.id != UNASSIGNED
    ensures Learned(r, m, {relay.id} + if asRelay then {r.self.id} else {}) && m.table != map[]
    ensures QueryReply(r, metric, relay, asRelay, fails, now) == SendToNext(m, fails)
  {
    LearnOne(r, metric, r, {}, relay, now, {relay.id});
    m := Add(r, metric, relay, now);
    assert relay.id in m.table;
    if asRelay {
      LearnOne(r, metric, m, {relay.id}, m.self, now, {relay.id} + {r.self.id});
      m := Add(m, metric, m.self, now);
      assert relay.id in m.table;
    }
  }
}
