/** The relay handler (VAST/VASTRelay.cpp), whose table, index, pointers and
    join state are changed in place. */
module RelayHandlers {
  import opened Options
  import opened Relay
  import opened RelayRuns
  import opened RelaySearch

  // Erasing at the first position of a relay.
  lemma {:induction false} DropAt(index: seq<Entry>, id: Id, i: nat)
    requires i < |index| && index[i].id == id
    requires forall j :: 0 <= j < i ==> index[j].id != id
    ensures Drop(index, id) == index[..i] + index[i + 1..]
    ensures IndexOf(index, id) == i
  {
    if i > 0 {
      DropAt(index[1..], id, i - 1);
      assert index[..i] == [index[0]] + index[1..][..i - 1];
    }
  }

  lemma {:induction false} Absentee(index: seq<Entry>, id: Id)
    requires forall j :: 0 <= j < |index| ==> index[j].id != id
    ensures Drop(index, id) == index
    ensures IndexOf(index, id) == |index|
  {
    if index != [] {
      Absentee(index[1..], id);
    }
  }

  class RelayHandler {
    var self: Node
    var relays: map<Id, Node>
    var dist2relay: seq<Entry>
    var curr: Current
    var contact: Option<Id>
    var state: JoinState
    const metric: Metric

    function State(): Relays
      reads this
    {
      Relays(self, relays, dist2relay, curr, contact, state)
    }

    constructor (node: Node, metric: Metric)
      ensures State() == Start(node)
    {
      this.metric := metric;
      self, relays, dist2relay, curr, contact, state := node, map[], [], Nobody, None, Absent;
    }

    // Where a relay stands in the index, by a walk from the front.
    method Find(id: Id) returns (i: nat)
      ensures i == IndexOf(dist2relay, id)
    {
      i := 0;
      while i < |dist2relay|
        invariant i <= |dist2relay|
        invariant forall j :: 0 <= j < i ==> dist2relay[j].id != id
      {
        if dist2relay[i].id == id {
          DropAt(dist2relay, id, i);
          return;
        }
        i := i + 1;
      }
      Absentee(dist2relay, id);
    }

    method AddRelay(relay: Node, now: nat)
      modifies this
      ensures State() == Add(old(State()), metric, relay, now)
    {
      if relay.id == UNASSIGNED {
        return;
      }
      var dist := metric(relay.center, self.center);
      if relay.id in relays {
        relays := relays[relay.id := relay];
        var i := Find(relay.id);
        if i < |dist2relay| {
          DropAt(dist2relay, relay.id, i);
          dist2relay := dist2relay[..i] + dist2relay[i + 1..];
        } else {
          Absentee(dist2relay, relay.id);
        }
      } else {
        relays := relays[relay.id := relay];
      }
      relays := relays[relay.id := relays[relay.id].(time := now)];
      assert relays == old(relays)[relay.id := relay.(time := now)];
      dist2relay := Place(dist2relay, Entry(dist, relay.id));
    }

    method RemoveRelay(id: Id)
      modifies this
      ensures State() == Remove(old(State()), id)
    {
      if id !in relays {
        return;
      }
      if !curr.Nobody? && id == CurrentId(State()) {
        curr, contact, state := Nobody, None, Querying;
      }
      if contact == Some(id) {
        contact := None;
      }
      var i := Find(id);
      if i < |dist2relay| {
        DropAt(dist2relay, id, i);
        dist2relay := dist2relay[..i] + dist2relay[i + 1..];
        relays := relays - {id};
      }
    }

    // `failed`: the targets of a message that could not be reached.
    method RemoveFailed(failed: seq<Id>)
      modifies this
      ensures State() == RemoveAll(old(State()), failed)
    {
      var i := 0;
      while i < |failed|
        invariant 0 <= i <= |failed|
        invariant State() == RemoveFirst(old(State()), failed, i)
      {
        RemoveRelay(failed[i]);
        i := i + 1;
      }
    }

    method SetJoined(id: Id) returns (ok: bool)
      modifies this
      ensures (State(), ok) == Join(old(State()), id)
    {
      if id == UNASSIGNED {
        curr := Myself;
      } else {
        if id !in relays {
          return false;
        }
        curr := Known(id);
      }
      contact, state := None, Joined;
      return true;
    }

    method NextRelay() returns (relay: Option<Id>)
      requires Tables(State())
      modifies this
      ensures State() == ContactNext(old(State())) && relay == contact
    {
      ListSize(dist2relay, relays.Keys);
      if contact.None? {
        if |relays| == 0 {
          return None;
        }
        contact := Some(dist2relay[0].id);
      } else {
        var i := Find(contact.value);
        if i < |dist2relay| {
          i := i + 1;
        }
        if i == |dist2relay| {
          i := 0;
        }
        contact := Some(dist2relay[i].id);
      }
      return contact;
    }

    // `far`: the distance from each relay to the position asked about.
    method ClosestRelay(far: Distances) returns (id: Id)
      ensures id == Closest(State(), far)
    {
      id := self.id;
      var least := far(self.id);
      var i := 0;
      while i < |dist2relay|
        invariant 0 <= i <= |dist2relay|
        invariant Best(id, least) == Scan(dist2relay, far, Best(self.id, far(self.id)), i)
      {
        var dist := far(dist2relay[i].id);
        if dist < least || (dist - least < EQUAL_DISTANCE && dist2relay[i].id < id) {
          id, least := dist2relay[i].id, dist;
        }
        i := i + 1;
      }
    }

    /** RELAY_QUERY.  The result is the relay the query went to, or None when it
        was answered here. */
    method HandleQuery(far: Distances, reachable: set<Id>) returns (next: Option<Id>)
      requires Inv(State())
      modifies this
      ensures Route(old(State()), far, reachable, |old(relays)|) == Some(Handled(State(), next))
    {
      RouteEnds(State(), far, reachable, |relays|);
      var success := false;
      next := None;
      while !success
        invariant Inv(State())
        invariant !success ==> Route(State(), far, reachable, |relays|)
                               == Route(old(State()), far, reachable, |old(relays)|)
        invariant success ==> next.Some?
                              && Route(old(State()), far, reachable, |old(relays)|) == Some(Handled(State(), next))
        invariant !success ==> next == None
        decreases |relays|, !success
      {
        var closest := ClosestRelay(far);
        if closest == self.id {
          break;
        } else if closest in reachable {
          next, success := Some(closest), true;
        } else {
          RetryStep(State(), far, reachable);
          RemoveRelay(closest);
        }
      }
    }

    method CleanupRelays(limit: nat)
      requires Inv(State())
      modifies this
      ensures Cleanup(old(State()), limit) == Some(State())
    {
      if limit == 0 || curr.Nobody? {
        return;
      }
      if state == Joined && |dist2relay| > limit {
        ghost var p := SurplusIs(State(), limit);
        var list := CollectSurplus(limit);
        RemoveFailed(list);
      }
    }

    // The backward walk over the index.
    method CollectSurplus(limit: nat) returns (list: seq<Id>)
      requires Inv(State()) && state == Joined && 0 < limit < |dist2relay|
      ensures Surplus(State(), limit) == Some(list)
    {
      var keep := CurrentId(State());
      var count: nat := |dist2relay| - limit;
      var k: nat := |dist2relay|;
      KeepsAtMostOne(dist2relay, relays.Keys, k, keep);
      list := [];
      while count > 0
        invariant k <= |dist2relay|
        invariant count + Keeps(dist2relay, k, keep) <= k
        invariant StopAt(dist2relay, k, count, keep) == StopAt(dist2relay, |dist2relay|, |dist2relay| - limit, keep)
        invariant forall p :: 0 <= p <= k ==>
                    TakenFrom(dist2relay, |dist2relay|, p, keep) == list + TakenFrom(dist2relay, k, p, keep)
        decreases k
      {
        if dist2relay[k - 1].id != keep {
          list := list + [dist2relay[k - 1].id];
          count := count - 1;
        }
        k := k - 1;
      }
      assert StopAt(dist2relay, |dist2relay|, |dist2relay| - limit, keep) == Some(k);
      assert TakenFrom(dist2relay, k, k, keep) == [];
      assert TakenFrom(dist2relay, |dist2relay|, k, keep) == list;
    }

    method JoinRelay(fails: bool) returns (ok: bool)
      requires Tables(State())
      modifies this
      ensures State() == JoinNext(old(State()), fails)
      ensures ok <==> old(relays) != map[]
    {
      if |relays| == 0 {
        return false;
      }
      ContactIsKnown(State());
      var relay := NextRelay();
      if fails {
        RemoveRelay(relay.value);
      }
      return true;
    }

    method HandleJoinReply(from: Id, asRelay: bool, accepted: bool, failed: seq<Id>, fails: bool)
      requires Tables(State())
      modifies this
      ensures State() == JoinReply(old(State()), from, asRelay, accepted, failed, fails)
    {
      if state == Joined {
        return;
      }
      if !asRelay && !accepted {
        var ok := JoinRelay(fails);
      } else if asRelay {
        RemoveFailed(failed);
        var ok := SetJoined(UNASSIGNED);
      } else {
        var ok := SetJoined(from);
      }
    }

    method PingRelays(t: Tick)
      modifies this
      ensures State() == Ping(old(State()), metric, t)
    {
      if t.pingDue {
        if |relays| == 0 {
          var i := 0;
          while i < |t.entries|
            invariant 0 <= i <= |t.entries|
            invariant State() == AddFirst(old(State()), metric, t.entries, i, t.now)
          {
            AddRelay(t.entries[i], t.now);
            i := i + 1;
          }
        }
        RemoveFailed(t.pingFailed);
      }
    }

    method AdvanceState(t: Tick)
      requires Tables(State())
      modifies this
      ensures State() == Advance(old(State()), t)
    {
      match state
      case Absent =>
        if |relays| == 0 {
          var ok := SetJoined(UNASSIGNED);
        } else if t.located {
          state := Querying;
        }
      case Querying =>
        if !curr.Nobody? {
          state := Joining;
        } else if t.queryDue {
          var relay := NextRelay();
          if relay.Some? && t.fails {
            RemoveRelay(relay.value);
          }
        }
      case Joining =>
        if t.joinDue {
          var ok := JoinRelay(t.fails);
        }
      case Joined =>
    }

    method PostHandling(t: Tick, limit: nat)
      requires Inv(State())
      modifies this
      ensures Relay.PostHandling(old(State()), metric, t, limit) == Some(State())
      ensures Inv(State())
    {
      StepKeepsInv(State(), metric, Ticks(t, limit));
      PingKeepsInv(State(), metric, t);
      PingRelays(t);
      AdvanceKeepsInv(State(), t);
      AdvanceState(t);
      CleanupRelays(limit);
    }
  }
}
