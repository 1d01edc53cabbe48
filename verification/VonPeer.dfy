/** A peer of the Voronoi overlay (VAST/VONPeer.cpp), whose tables are changed in
    place by its messages and ticks. */
module VonPeers {
  import opened OrderedKeys
  import opened Sequences
  import opened Von

  // Erasing at the first place of an id.
  lemma {:induction false} WithoutAt(order: seq<Id>, id: Id, i: nat)
    requires i < |order| && order[i] == id && id !in order[..i]
    ensures Without(order, id) == order[..i] + order[i + 1..]
  {
    if i > 0 {
      assert order[0] in order[..i];
      assert order[1..][..i - 1] == order[..i][1..];
      WithoutAt(order[1..], id, i - 1);
      assert order[..i] == [order[0]] + order[1..][..i - 1];
    }
  }

  lemma {:induction false} WithoutAbsent(order: seq<Id>, id: Id)
    requires id !in order
    ensures Without(order, id) == order
  {
    if order != [] {
      WithoutAbsent(order[1..], id);
    }
  }

  // What has become of a drop time once the nodes in `done` have been looked at.
  ghost predicate DropStands(v: Peer, drop: map<Id, Time>, done: set<Id>, relevant: set<Id>, now: Time, grace: Time,
                             id: Id) {
    if id in done then
      if id in Drops(v, relevant, now) then id !in drop
      else id in drop && drop[id] == DropTime(v, id, relevant, now, grace)
    else if id in v.drop then id in drop && drop[id] == v.drop[id]
    else id !in drop
  }

  ghost predicate DropsStand(v: Peer, drop: map<Id, Time>, done: set<Id>, relevant: set<Id>, now: Time, grace: Time) {
    forall id :: DropStands(v, drop, done, relevant, now, grace, id)
  }

  lemma DropStandsMore(v: Peer, before: map<Id, Time>, after: map<Id, Time>, done: set<Id>,
                       relevant: set<Id>, now: Time, grace: Time, id: Id)
    requires DropsStand(v, before, done, relevant, now, grace)
    requires id in v.nodes && id !in done
    requires after == if id == v.self.id || id in relevant then before[id := now + grace]
                      else if now >= (if id in before then before[id] else 0) then before - {id}
                      else before
    ensures DropsStand(v, after, done + {id}, relevant, now, grace)
  {
    forall k
      ensures DropStands(v, after, done + {id}, relevant, now, grace, k)
    {
      assert DropStands(v, before, done, relevant, now, grace, k);
    }
  }

  lemma AllStand(v: Peer, drop: map<Id, Time>, relevant: set<Id>, now: Time, grace: Time)
    requires DropsStand(v, drop, v.nodes.Keys, relevant, now, grace)
    ensures drop == map id | id in v.drop.Keys + v.nodes.Keys && id !in Drops(v, relevant, now) ::
                      DropTime(v, id, relevant, now, grace)
  {
    var kept := map id | id in v.drop.Keys + v.nodes.Keys && id !in Drops(v, relevant, now) ::
      DropTime(v, id, relevant, now, grace);
    forall k
      ensures k in drop <==> k in kept
      ensures k in drop && k in kept ==> drop[k] == kept[k]
    {
      assert DropStands(v, drop, v.nodes.Keys, relevant, now, grace, k);
    }
  }

  lemma WalkCovers(keys: seq<Id>, ids: set<Id>)
    requires forall id :: id in keys <==> id in ids
    ensures Members(keys) == ids && forall i :: 0 <= i < |keys| ==> keys[i] in ids
  {
    assert forall i :: 0 <= i < |keys| ==> keys[i] in keys;
  }

  lemma DropsListed(v: Peer, drop: map<Id, Time>, keys: seq<Id>, list: seq<Id>, relevant: set<Id>,
                    now: Time, grace: Time)
    requires Members(keys) == v.nodes.Keys && DropsStand(v, drop, Members(keys), relevant, now, grace)
    requires Ascends(list) && forall k :: 0 <= k < |list| ==> list[k] in Drops(v, relevant, now)
    requires forall j :: 0 <= j < |keys| && keys[j] in Drops(v, relevant, now) ==> keys[j] in list
    ensures list == Ascending(Drops(v, relevant, now))
    ensures v.(drop := drop) ==
            v.(drop := map id | id in v.drop.Keys + v.nodes.Keys && id !in Drops(v, relevant, now) ::
                         DropTime(v, id, relevant, now, grace))
  {
    AllStand(v, drop, relevant, now, grace);
    forall id | id in Drops(v, relevant, now)
      ensures id in list
    {
      assert id in Members(keys);
    }
    AscendingIs(list, Drops(v, relevant, now));
  }

  class VonPeer {
    var self: Node
    var nodes: map<Id, Node>
    var order: seq<Id>
    var states: map<Id, Known>
    var drop: map<Id, Time>
    var sites: map<Id, Pos>
    var heard: map<Id, Node>
    var potential: map<Id, Node>
    var status: map<Id, Status>

    function State(): Peer
      reads this
    {
      Peer(self, nodes, order, states, drop, sites, heard, potential, status)
    }

    constructor (node: Node)
      ensures State() == Fresh(node)
    {
      self, nodes, order, states, drop := node, map[], [], map[], map[];
      sites, heard, potential, status := map[], map[], map[], map[];
    }

    method InsertNode(node: Node) returns (ok: bool)
      modifies this
      ensures State() == Insert(old(State()), node)
      ensures ok <==> node.id !in old(nodes)
    {
      if node.id in nodes {
        return false;
      }
      sites := AddSite(sites, node.id, node.center);
      nodes := nodes[node.id := node];
      order := order + [node.id];
      states := states[node.id := map[]];
      drop := drop[node.id := 0];
      status := status[node.id := Inserted];
      return true;
    }

    method DeleteNode(id: Id) returns (ok: bool)
      modifies this
      ensures State() == Delete(old(State()), id)
      ensures ok <==> id in old(nodes)
    {
      if id !in nodes {
        return false;
      }
      sites := sites - {id};
      var i := 0;
      while i < |order| && order[i] != id
        invariant 0 <= i <= |order| && id !in order[..i]
      {
        i := i + 1;
      }
      if i < |order| {
        WithoutAt(order, id, i);
        order := order[..i] + order[i + 1..];
      } else {
        WithoutAbsent(order, id);
      }
      nodes, states, drop := nodes - {id}, states - {id}, drop - {id};
      status := status[id := Deleted];
      return true;
    }

    method UpdateNode(node: Node) returns (ok: bool)
      modifies this
      ensures State() == Update(old(State()), node)
      ensures ok <==> !Refused(old(State()), node)
    {
      if node.id !in nodes || node.time < nodes[node.id].time {
        return false;
      }
      if node.id in sites {
        sites := sites[node.id := node.center];
      }
      nodes := nodes[node.id := node];
      if node.id !in status || status[node.id] != Inserted {
        status := status[node.id := Updated];
      }
      return true;
    }

    method Join(node: Node)
      modifies this
      ensures State() == JoinAt(old(State()), node)
    {
      self := node;
      var ok := InsertNode(node);
    }

    method Leave()
      modifies this
      ensures State() == Von.Leave(old(State()))
    {
      states, nodes, order := map[], map[], [];
    }

    method HandleEnclosing(from: Id, list: Known, lookedUp: bool)
      modifies this
      ensures State() == Enclosing(old(State()), from, list, lookedUp)
    {
      states := states[from := list];
      if lookedUp && from !in nodes {
        nodes := nodes[from := Node(0, 0, Pos(0.0, 0.0, 0.0), 0)];
      }
    }

    method HandleHello(from: Id, node: Node, list: Known, lookedUp: bool)
      modifies this
      ensures State() == Hello(old(State()), from, node, list, lookedUp)
    {
      if from in nodes {
        var ok := UpdateNode(node);
      } else {
        var ok := InsertNode(node);
      }
      HandleEnclosing(from, list, lookedUp);
    }

    method HandleHelloReply(from: Id, center: Pos)
      modifies this
      ensures State() == HelloReply(old(State()), from, center)
    {
      if from in potential {
        var ok := InsertNode(potential[from].(center := center));
        potential := potential - {from};
      }
    }

    method HandleMove(from: Id, node: Node)
      modifies this
      ensures State() == Von.Move(old(State()), from, node)
    {
      if from in nodes {
        var ok := UpdateNode(node);
      }
    }

    method HandleNodes(list: seq<Node>)
      modifies this
      ensures State() == Notified(old(State()), list)
    {
      var i := 0;
      while i < |list|
        invariant 0 <= i <= |list|
        invariant State() == old(State()).(heard := HearFirst(old(heard), list, i))
      {
        var node := list[i];
        if node.id !in heard || heard[node.id].time <= node.time {
          heard := heard[node.id := node];
        } else {
          assert heard[node.id := heard[node.id]] == heard;
        }
        i := i + 1;
      }
    }

    method HandleBye(from: Id)
      modifies this
      ensures State() == Bye(old(State()), from)
    {
      var i := 0;
      while i < |order|
        invariant 0 <= i <= |order| && from !in order[..i] && State() == old(State())
      {
        if order[i] == from {
          var ok := DeleteNode(from);
          return;
        }
        i := i + 1;
      }
    }

    method DeleteNodes(list: seq<Id>)
      modifies this
      ensures State() == DeleteAll(old(State()), list)
    {
      var i := 0;
      while i < |list|
        invariant 0 <= i <= |list| && State() == DeleteFirst(old(State()), list, i)
      {
        var ok := DeleteNode(list[i]);
        i := i + 1;
      }
    }

    // `failed`: the neighbours to which the move could not be sent.
    method Move(node: Node, failed: seq<Id>)
      modifies this
      ensures State() == MoveSelf(old(State()), node, failed)
    {
      self := node;
      var ok := UpdateNode(self);
      DeleteNodes(failed);
    }

    // Known nodes heard of are brought up to date, others put on trial.
    method SortHeard(keys: seq<Id>) returns (list: seq<Id>)
      requires forall i :: 0 <= i < |keys| ==> keys[i] in heard
      modifies this
      ensures State() == SortOut(old(State()), keys, |keys|) && list == Unknown(old(State()), keys, |keys|)
    {
      list := [];
      var i := 0;
      while i < |keys|
        invariant 0 <= i <= |keys| && heard == old(heard)
        invariant State() == SortOut(old(State()), keys, i) && list == Unknown(old(State()), keys, i)
      {
        var node := heard[keys[i]];
        if node.id in nodes {
          var ok := UpdateNode(node);
        } else {
          sites := AddSite(sites, node.id, node.center);
          list := list + [node.id];
        }
        i := i + 1;
      }
    }

    method GreetRelevant(list: seq<Id>, relevant: Relevance)
      requires forall i :: 0 <= i < |list| ==> list[i] in heard
      modifies `potential
      ensures State() == Greet(old(State()), list, |list|, relevant)
    {
      var i := 0;
      while i < |list|
        invariant 0 <= i <= |list| && State() == Greet(old(State()), list, i, relevant)
      {
        var node := heard[list[i]];
        if relevant(sites, node, self) {
          potential := potential[list[i] := node];
        }
        i := i + 1;
      }
    }

    method RemoveTrials(list: seq<Id>)
      modifies `sites, `heard
      ensures State() == old(State()).(sites := old(sites) - Members(list), heard := map[])
    {
      var i := 0;
      while i < |list|
        invariant 0 <= i <= |list| && sites == old(sites) - FirstOf(list, i) && heard == old(heard)
      {
        sites := sites - {list[i]};
        FirstOfGrows(list, i);
        assert old(sites) - FirstOf(list, i) - {list[i]} == old(sites) - FirstOf(list, i + 1);
        i := i + 1;
      }
      assert FirstOf(list, |list|) == Members(list);
      heard := map[];
    }

    method ContactNewNeighbors(relevant: Relevance)
      requires HeardFine(State())
      modifies this
      ensures State() == ContactNew(old(State()), relevant)
    {
      var keys := Ascending(heard.Keys);
      ghost var v := State();
      var list := SortHeard(keys);
      ghost var v1 := State();
      GreetRelevant(list, relevant);
      ghost var v2 := State();
      RemoveTrials(list);
    }

    // One neighbour's drop time; whether it is to be dropped.
    method VisitDrop(id: Id, relevant: set<Id>, now: Time, grace: Time, ghost v: Peer, ghost done: set<Id>)
      returns (drops: bool)
      requires id in v.nodes && id !in done && self.id == v.self.id && DropsStand(v, drop, done, relevant, now, grace)
      modifies `drop
      ensures drops <==> id in Drops(v, relevant, now)
      ensures DropsStand(v, drop, done + {id}, relevant, now, grace)
    {
      assert DropStands(v, drop, done, relevant, now, grace, id);
      ghost var before := drop;
      drops := false;
      if id == self.id || id in relevant {
        drop := drop[id := now + grace];
      } else if now >= (if id in drop then drop[id] else 0) {
        drops := true;
        drop := drop - {id};
      }
      DropStandsMore(v, before, drop, done, relevant, now, grace, id);
    }

    // The neighbours to drop, in the order of `keys`; the drop times of the others.
    method ListDrops(keys: seq<Id>, relevant: set<Id>, now: Time, grace: Time) returns (list: seq<Id>)
      requires Ascends(keys) && forall i :: 0 <= i < |keys| ==> keys[i] in nodes
      modifies `drop
      ensures Ascends(list) && forall k :: 0 <= k < |list| ==> list[k] in Drops(old(State()), relevant, now)
      ensures forall j :: 0 <= j < |keys| && keys[j] in Drops(old(State()), relevant, now) ==> keys[j] in list
      ensures DropsStand(old(State()), drop, Members(keys), relevant, now, grace)
    {
      ghost var v := State();
      ghost var gone, done := Drops(v, relevant, now), {};
      list := [];
      var i := 0;
      while i < |keys|
        invariant 0 <= i <= |keys| && Ascends(list)
        invariant forall k :: 0 <= k < |list| && i < |keys| ==> list[k] < keys[i]
        invariant forall k :: 0 <= k < |list| ==> list[k] in gone
        invariant forall j :: 0 <= j < i && keys[j] in gone ==> keys[j] in list
        invariant done == FirstOf(keys, i)
        invariant DropsStand(v, drop, done, relevant, now, grace)
      {
        var id := keys[i];
        FirstOfGrows(keys, i);
        assert id !in done;
        var drops := VisitDrop(id, relevant, now, grace, v, done);
        if drops {
          list := list + [id];
        }
        done := done + {id};
        i := i + 1;
      }
      assert FirstOf(keys, |keys|) == Members(keys);
    }

    method RemoveNonOverlapped(relevant: set<Id>, now: Time, grace: Time) returns (count: nat)
      modifies this
      ensures State() == Von.RemoveNonOverlapped(old(State()), relevant, now, grace)
      ensures count == |Drops(old(State()), relevant, now)|
    {
      ghost var v := State();
      var keys := Ascending(nodes.Keys);
      WalkCovers(keys, nodes.Keys);
      var list := ListDrops(keys, relevant, now, grace);
      DropsListed(v, drop, keys, list, relevant, now, grace);
      DeleteNodes(list);
      count := |list|;
    }

    /** The neighbour other than the peer itself that is closest to a position. */
    method GetClosestEnclosing(at: Pos, metric: Metric) returns (closest: Id)
      requires forall i :: 0 <= i < |order| ==> order[i] in nodes
      ensures closest == Closest(State(), at, metric)
    {
      if |order| <= 1 {
        return 0;
      } else if |order| == 2 {
        return order[1];
      }
      closest := order[1];
      assert order[1] in nodes;
      var shortest := metric(at, nodes[closest].center);
      var i := 2;
      while i < |order|
        invariant 2 <= i <= |order|
        invariant closest == ClosestUpTo(State(), at, metric, i)
        invariant closest in nodes && shortest == metric(at, nodes[closest].center)
      {
        var id := order[i];
        assert id in nodes;
        var dist := metric(at, nodes[id].center);
        if dist < shortest {
          shortest, closest := dist, id;
        }
        i := i + 1;
      }
    }
  }
}
