/** What holds of a peer's neighbour tables between joining and leaving. */
module VonRuns {
  import opened OrderedKeys
  import opened Sequences
  import opened Von

  // The five tables describe one set of nodes, at one position each.
  ghost predicate AgreeOn(v: Peer, id: Id) {
    if id in v.nodes then
      && id in v.states && id in v.drop && id in v.sites && id in v.order
      && v.nodes[id].id == id && v.sites[id] == v.nodes[id].center
    else
      id !in v.states && id !in v.drop && id !in v.sites && id !in v.order
  }

  ghost predicate Agree(v: Peer) {
    NoRepeats(v.order) && forall id :: AgreeOn(v, id)
  }

  ghost predicate PotentialFine(v: Peer) {
    forall id :: id in v.potential ==> v.potential[id].id == id
  }

  ghost predicate Inv(v: Peer) {
    Agree(v) && HeardFine(v) && PotentialFine(v) && v.order != [] && v.order[0] == v.self.id
  }

  lemma InsertKeepsInv(v: Peer, node: Node)
    requires Inv(v)
    ensures Inv(Insert(v, node))
  {
    var n := Insert(v, node);
    if node.id !in v.nodes {
      assert AgreeOn(v, node.id);
      assert forall i :: 0 <= i < |v.order| ==> v.order[i] in v.order;
      forall id
        ensures AgreeOn(n, id)
      {
        assert AgreeOn(v, id);
      }
    }
  }

  lemma {:induction false} WithoutMembers(order: seq<Id>, id: Id)
    requires NoRepeats(order)
    ensures forall k :: k in Without(order, id) <==> k in order && k != id
  {
    if order != [] {
      var rest := order[1..];
      assert forall i :: 0 <= i < |rest| ==> rest[i] == order[i + 1];
      assert order == [order[0]] + rest;
      assert order[0] !in rest;
      if order[0] != id {
        WithoutMembers(rest, id);
      }
    }
  }

  lemma {:induction false} WithoutNoRepeats(order: seq<Id>, id: Id)
    requires NoRepeats(order)
    ensures NoRepeats(Without(order, id))
    ensures order != [] && order[0] != id ==> Without(order, id) != [] && Without(order, id)[0] == order[0]
  {
    if order != [] && order[0] != id {
      var rest := order[1..];
      WithoutNoRepeats(rest, id);
      WithoutMembers(rest, id);
      var w := Without(rest, id);
      assert order[0] !in rest;
      assert forall j :: 0 <= j < |w| ==> w[j] in w;
    }
  }

  lemma DeleteKeepsInv(v: Peer, id: Id)
    requires Inv(v) && id != v.self.id
    ensures Inv(Delete(v, id)) && Delete(v, id).self == v.self
    ensures Delete(v, id).nodes == v.nodes - {id}
  {
    var n := Delete(v, id);
    if id in v.nodes {
      WithoutMembers(v.order, id);
      WithoutNoRepeats(v.order, id);
      forall k
        ensures AgreeOn(n, k)
      {
        assert AgreeOn(v, k);
      }
    } else {
      assert v.nodes - {id} == v.nodes;
    }
  }

  lemma {:induction false} DeleteFirstKeepsInv(v: Peer, list: seq<Id>, n: nat)
    requires Inv(v) && n <= |list| && forall i :: 0 <= i < |list| ==> list[i] != v.self.id
    ensures Inv(DeleteFirst(v, list, n)) && DeleteFirst(v, list, n).self == v.self
    ensures DeleteFirst(v, list, n).nodes == v.nodes - FirstOf(list, n)
  {
    if n == 0 {
      assert v.nodes - {} == v.nodes;
    } else {
      DeleteFirstKeepsInv(v, list, n - 1);
      DeleteKeepsInv(DeleteFirst(v, list, n - 1), list[n - 1]);
      FirstOfGrows(list, n - 1);
      assert v.nodes - FirstOf(list, n - 1) - {list[n - 1]} == v.nodes - FirstOf(list, n);
    }
  }

  lemma UpdateKeepsInv(v: Peer, node: Node)
    requires Inv(v)
    ensures Inv(Update(v, node)) && Update(v, node).nodes.Keys == v.nodes.Keys
  {
    var n := Update(v, node);
    if !Refused(v, node) {
      assert n.nodes.Keys == v.nodes.Keys;
      forall k
        ensures AgreeOn(n, k)
      {
        assert AgreeOn(v, k) && AgreeOn(v, node.id);
      }
    }
  }

  // A list from a known neighbour changes no table's nodes.
  lemma EnclosingKeepsInv(v: Peer, from: Id, list: Known, lookedUp: bool)
    requires Inv(v) && from in v.nodes
    ensures Inv(Enclosing(v, from, list, lookedUp))
  {
    forall k
      ensures AgreeOn(Enclosing(v, from, list, lookedUp), k)
    {
      assert AgreeOn(v, k);
    }
  }

  /** VON_EN leaves the tables in agreement if and only if its sender is known. */
  lemma EnclosingAgreesIff(v: Peer, from: Id, list: Known, lookedUp: bool)
    requires Inv(v)
    ensures Agree(Enclosing(v, from, list, lookedUp)) <==> from in v.nodes
  {
    if from in v.nodes {
      EnclosingKeepsInv(v, from, list, lookedUp);
    } else {
      assert AgreeOn(v, from) && !AgreeOn(Enclosing(v, from, list, lookedUp), from);
    }
  }

  lemma {:induction false} HearFirstFine(v: Peer, list: seq<Node>, n: nat)
    requires HeardFine(v) && n <= |list|
    ensures HeardFine(v.(heard := HearFirst(v.heard, list, n)))
  {
    if n > 0 {
      HearFirstFine(v, list, n - 1);
    }
  }

  // ---------------------------------------------------------------- ticks

  // A peer without the sites it has on trial.
  function Untried(v: Peer, trial: set<Id>): Peer {
    v.(sites := v.sites - trial)
  }

  lemma TryKnown(w: Peer, trial: set<Id>, node: Node)
    requires Inv(Untried(w, trial)) && trial !! w.nodes.Keys && node.id in w.nodes
    ensures Inv(Untried(Update(w, node), trial)) && Update(w, node).nodes.Keys == w.nodes.Keys
  {
    assert AgreeOn(Untried(w, trial), node.id);
    assert Untried(Update(w, node), trial) == Update(Untried(w, trial), node) by {
      if !Refused(w, node) {
        assert w.sites[node.id := node.center] - trial == (w.sites - trial)[node.id := node.center];
      }
    }
    UpdateKeepsInv(Untried(w, trial), node);
  }

  lemma TryUnknown(w: Peer, trial: set<Id>, node: Node)
    requires Inv(Untried(w, trial)) && node.id !in w.nodes
    ensures Inv(Untried(w.(sites := AddSite(w.sites, node.id, node.center)), trial + {node.id}))
  {
    assert AgreeOn(Untried(w, trial), node.id);
    assert AddSite(w.sites, node.id, node.center) - (trial + {node.id}) == w.sites - trial;
  }

  // Only those on trial are in the diagram beside the neighbours.
  ghost predicate OnTrial(w: Peer, trial: set<Id>) {
    Inv(Untried(w, trial)) && trial !! w.nodes.Keys
  }

  lemma {:induction false} SortOutNext(v: Peer, keys: seq<Id>, n: nat, next: nat)
    requires next == n + 1 <= |keys| && forall i :: 0 <= i < |keys| ==> keys[i] in v.heard
    requires OnTrial(SortOut(v, keys, n), Members(Unknown(v, keys, n)))
    ensures OnTrial(SortOut(v, keys, next), Members(Unknown(v, keys, next)))
  {
    var w, trial := SortOut(v, keys, n), Members(Unknown(v, keys, n));
    var node := v.heard[keys[n]];
    if node.id in v.nodes {
      TryKnown(w, trial, node);
      assert Members(Unknown(v, keys, next)) == trial;
    } else {
      TryUnknown(w, trial, node);
      assert Members(Unknown(v, keys, next)) == trial + {node.id};
    }
  }

  lemma {:induction false} SortOutIs(v: Peer, keys: seq<Id>, n: nat)
    requires Inv(v) && n <= |keys| && forall i :: 0 <= i < |keys| ==> keys[i] in v.heard
    ensures OnTrial(SortOut(v, keys, n), Members(Unknown(v, keys, n)))
  {
    if n == 0 {
      assert Members([]) == {} && Untried(v, {}) == v;
    } else {
      SortOutIs(v, keys, n - 1);
      SortOutNext(v, keys, n - 1, n);
    }
  }

  // Greeting only records potential neighbours.
  lemma {:induction false} GreetIs(v: Peer, list: seq<Id>, n: nat, relevant: Relevance)
    requires HeardFine(v) && PotentialFine(v)
    requires n <= |list| && forall i :: 0 <= i < |list| ==> list[i] in v.heard
    ensures var g := Greet(v, list, n, relevant);
            g == v.(potential := g.potential) && PotentialFine(g)
  {
    if n > 0 {
      GreetIs(v, list, n - 1, relevant);
    }
  }

  /** After the batch of nodes heard of, the diagram holds the sites of the
      neighbours again and nothing else: every site on trial has been removed. */
  lemma ContactNewKeepsInv(v: Peer, relevant: Relevance)
    requires Inv(v)
    ensures Inv(ContactNew(v, relevant))
    ensures ContactNew(v, relevant).nodes.Keys == v.nodes.Keys
  {
    var keys := Ascending(v.heard.Keys);
    SortOutIs(v, keys, |keys|);
    var w, list := SortOut(v, keys, |keys|), Unknown(v, keys, |keys|);
    GreetIs(w, list, |list|, relevant);
    var u := Untried(w, Members(list));
    var n := ContactNew(v, relevant);
    forall id
      ensures AgreeOn(n, id)
    {
      assert AgreeOn(u, id);
    }
  }

  // Deleting does not care which drop times are already gone.
  lemma {:induction false} DropApart(v: Peer, gone: set<Id>, list: seq<Id>, n: nat)
    requires n <= |list|
    ensures var w := DeleteFirst(v, list, n);
            DeleteFirst(v.(drop := v.drop - gone), list, n) == w.(drop := w.drop - gone)
  {
    if n > 0 {
      DropApart(v, gone, list, n - 1);
      var w, id := DeleteFirst(v, list, n - 1), list[n - 1];
      assert w.drop - gone - {id} == w.drop - {id} - gone;
    }
  }

  // A peer in which every neighbour has a drop time, those to go included.
  function Timed(v: Peer, relevant: set<Id>, now: Time, grace: Time): Peer {
    v.(drop := map id | id in v.nodes :: DropTime(v, id, relevant, now, grace))
  }

  lemma TimedKeepsInv(v: Peer, relevant: set<Id>, now: Time, grace: Time)
    requires Inv(v)
    ensures Inv(Timed(v, relevant, now, grace))
  {
    forall id
      ensures AgreeOn(Timed(v, relevant, now, grace), id)
    {
      assert AgreeOn(v, id);
    }
  }

  lemma KeptIs(v: Peer, relevant: set<Id>, now: Time, grace: Time)
    requires Inv(v)
    ensures var gone, t := Drops(v, relevant, now), Timed(v, relevant, now, grace);
            RemoveNonOverlapped(v, relevant, now, grace) == DeleteAll(t.(drop := t.drop - gone), Ascending(gone))
  {
    var gone, t := Drops(v, relevant, now), Timed(v, relevant, now, grace);
    var kept := map id | id in v.drop.Keys + v.nodes.Keys && id !in gone :: DropTime(v, id, relevant, now, grace);
    forall id
      ensures id in v.drop ==> id in v.nodes
    {
      assert AgreeOn(v, id);
    }
    assert kept == t.drop - gone;
    assert v.(drop := kept) == t.(drop := t.drop - gone);
  }

  lemma AllGone(v: Peer, list: seq<Id>, gone: set<Id>)
    requires Inv(v) && gone <= v.nodes.Keys && v.self.id !in gone
    requires forall id :: id in list <==> id in gone
    ensures Inv(DeleteAll(v, list)) && DeleteAll(v, list).nodes == v.nodes - gone
    ensures DeleteAll(v, list).drop - gone == DeleteAll(v, list).drop
  {
    assert forall i :: 0 <= i < |list| ==> list[i] in list;
    DeleteFirstKeepsInv(v, list, |list|);
    var w := DeleteAll(v, list);
    forall id | id in gone
      ensures id !in w.drop
    {
      assert AgreeOn(w, id);
    }
  }

  /** A clean-up removes exactly the neighbours that are irrelevant and past
      their drop time, from all five tables; it puts the drop time of the others
      off only if they are relevant, and never removes the peer itself. */
  lemma RemoveNonOverlappedIs(v: Peer, relevant: set<Id>, now: Time, grace: Time)
    requires Inv(v)
    ensures var n := RemoveNonOverlapped(v, relevant, now, grace);
            && Inv(n) && n.nodes == v.nodes - Drops(v, relevant, now) && n.self == v.self
            && forall id :: id in n.nodes ==>
                 && id in n.drop && id in v.drop
                 && n.drop[id] == if id == v.self.id || id in relevant then now + grace else v.drop[id]
  {
    var gone, t := Drops(v, relevant, now), Timed(v, relevant, now, grace);
    var list := Ascending(gone);
    KeptIs(v, relevant, now, grace);
    TimedKeepsInv(v, relevant, now, grace);
    DropApart(t, gone, list, |list|);
    AllGone(t, list, gone);
    var n := RemoveNonOverlapped(v, relevant, now, grace);
    var w := DeleteAll(t, list);
    assert n == w.(drop := w.drop - gone) == w;
    DropsStay(t, list, |list|);
    forall id | id in n.nodes
      ensures id in n.drop && id in v.drop
      ensures n.drop[id] == if id == v.self.id || id in relevant then now + grace else v.drop[id]
    {
      assert AgreeOn(w, id) && AgreeOn(v, id);
    }
  }

  // Deleting neighbours leaves the others' drop times alone.
  lemma {:induction false} DropsStay(v: Peer, list: seq<Id>, n: nat)
    requires n <= |list|
    ensures var w := DeleteFirst(v, list, n);
            w.self == v.self && forall id :: id in w.drop ==> id in v.drop && w.drop[id] == v.drop[id]
  {
    if n > 0 {
      DropsStay(v, list, n - 1);
    }
  }

  lemma DiscoveredKeepsInv(v: Peer, found: map<Id, Known>)
    requires Inv(v)
    ensures Inv(Discovered(v, found))
  {
    forall id
      ensures AgreeOn(Discovered(v, found), id)
    {
      assert AgreeOn(v, id);
    }
  }

  // ---------------------------------------------------------------- runs

  datatype Step =
    | DoQuery(joiner: Node)
    | DoHello(from: Id, node: Node, list: Known, lookedUp: bool)
    | DoEnclosing(from: Id, list: Known, lookedUp: bool)
    | DoHelloReply(from: Id, center: Pos)
    | DoMove(from: Id, node: Node)
    | DoNotified(heard: seq<Node>)
    | DoBye(from: Id)
    | DoMoveSelf(node: Node, failed: seq<Id>)
    | DoContact(relevant: Relevance)
    | DoDiscover(found: map<Id, Known>)
    | DoRemove(near: set<Id>, now: Time, grace: Time)

  // HELLO carries its sender's id and EN comes from a neighbour; nobody else
  // speaks as this peer, and it does not send to itself.
  predicate Polite(v: Peer, step: Step) {
    match step
    case DoHello(from, node, _, _) => node.id == from
    case DoEnclosing(from, _, _) => from in v.nodes
    case DoBye(from) => from != v.self.id
    case DoMoveSelf(node, failed) => node.id == v.self.id && v.self.id !in failed
    case _ => true
  }

  ghost function Next(v: Peer, step: Step): Peer
    requires HeardFine(v)
  {
    match step
    case DoQuery(joiner) => Insert(v, joiner)
    case DoHello(from, node, list, lookedUp) => Hello(v, from, node, list, lookedUp)
    case DoEnclosing(from, list, lookedUp) => Enclosing(v, from, list, lookedUp)
    case DoHelloReply(from, center) => HelloReply(v, from, center)
    case DoMove(from, node) => Move(v, from, node)
    case DoNotified(list) => Notified(v, list)
    case DoBye(from) => Bye(v, from)
    case DoMoveSelf(node, failed) => MoveSelf(v, node, failed)
    case DoContact(relevant) => ContactNew(v, relevant)
    case DoDiscover(found) => Discovered(v, found)
    case DoRemove(relevant, now, grace) => RemoveNonOverlapped(v, relevant, now, grace)
  }

  lemma SelfKeepsInv(v: Peer, node: Node)
    requires Inv(v) && node.id == v.self.id
    ensures Inv(v.(self := node))
  {
    forall id
      ensures AgreeOn(v.(self := node), id)
    {
      assert AgreeOn(v, id);
    }
  }

  lemma StepKeepsInv(v: Peer, step: Step)
    requires Inv(v) && Polite(v, step)
    ensures Inv(Next(v, step))
  {
    match step
    case DoQuery(joiner) => InsertKeepsInv(v, joiner);
    case DoHello(from, node, list, lookedUp) => {
      InsertKeepsInv(v, node);
      UpdateKeepsInv(v, node);
      EnclosingKeepsInv(if from in v.nodes then Update(v, node) else Insert(v, node), from, list, lookedUp);
    }
    case DoEnclosing(from, list, lookedUp) => EnclosingKeepsInv(v, from, list, lookedUp);
    case DoHelloReply(from, center) => HelloReplyKeepsInv(v, from, center);
    case DoMove(from, node) => UpdateKeepsInv(v, node);
    case DoNotified(list) => NotifiedKeepsInv(v, list);
    case DoBye(from) => DeleteKeepsInv(v, from);
    case DoMoveSelf(node, failed) => MoveSelfIs(v, node, failed);
    case DoContact(relevant) => ContactNewKeepsInv(v, relevant);
    case DoDiscover(found) => DiscoveredKeepsInv(v, found);
    case DoRemove(relevant, now, grace) => RemoveNonOverlappedIs(v, relevant, now, grace);
  }

  lemma HelloReplyKeepsInv(v: Peer, from: Id, center: Pos)
    requires Inv(v)
    ensures Inv(HelloReply(v, from, center))
  {
    if from in v.potential {
      var v1 := Insert(v, v.potential[from].(center := center));
      InsertKeepsInv(v, v.potential[from].(center := center));
      forall id
        ensures AgreeOn(v1.(potential := v1.potential - {from}), id)
      {
        assert AgreeOn(v1, id);
      }
    }
  }

  lemma NotifiedKeepsInv(v: Peer, list: seq<Node>)
    requires Inv(v)
    ensures Inv(Notified(v, list))
  {
    HearFirstFine(v, list, |list|);
    forall id
      ensures AgreeOn(Notified(v, list), id)
    {
      assert AgreeOn(v, id);
    }
  }

  // Joining for the first time puts the peer itself first in every table.
  lemma FirstJoinIsFine(self: Node)
    ensures Inv(JoinAt(Fresh(self), self))
  {
    var v := JoinAt(Fresh(self), self);
    forall id
      ensures AgreeOn(v, id)
    {
    }
  }

  // From a first join on.  (That `HeardFine` holds all along is proved.)
  ghost predicate Runs(vs: seq<Peer>, steps: seq<Step>, self: Node) {
    && |vs| == |steps| + 1 && vs[0] == JoinAt(Fresh(self), self)
    && forall i :: 0 <= i < |steps| ==>
         Polite(vs[i], steps[i]) && (HeardFine(vs[i]) ==> vs[i + 1] == Next(vs[i], steps[i]))
  }

  lemma {:induction false} RunKeepsInv(vs: seq<Peer>, steps: seq<Step>, self: Node, n: nat)
    requires Runs(vs, steps, self) && n < |vs|
    ensures Inv(vs[n])
  {
    if n == 0 {
      FirstJoinIsFine(self);
    } else {
      RunKeepsInv(vs, steps, self, n - 1);
      StepKeepsInv(vs[n - 1], steps[n - 1]);
    }
  }

  /** Between a first join and a leave, the keys of the node, state and drop-time
      tables and of the diagram are the same, the neighbour list holds exactly
      them, each once, with the peer itself at the front, and the diagram has
      every node where the node table has it. */
  lemma TablesAgree(vs: seq<Peer>, steps: seq<Step>, self: Node, n: nat)
    requires Runs(vs, steps, self) && n < |vs|
    ensures var v := vs[n];
            && v.states.Keys == v.drop.Keys == v.sites.Keys == v.nodes.Keys
            && (forall id :: id in v.order <==> id in v.nodes) && NoRepeats(v.order)
            && v.order != [] && v.order[0] == v.self.id
            && forall id :: id in v.nodes ==> v.sites[id] == v.nodes[id].center
  {
    RunKeepsInv(vs, steps, self, n);
    var v := vs[n];
    forall id
      ensures id in v.states <==> id in v.nodes
      ensures id in v.drop <==> id in v.nodes
      ensures id in v.sites <==> id in v.nodes
      ensures id in v.order <==> id in v.nodes
      ensures id in v.nodes ==> v.sites[id] == v.nodes[id].center
    {
      assert AgreeOn(v, id);
    }
  }

  /** A peer that leaves and joins again has tables in agreement if and only if
      it had no neighbour when it left and comes back to where it was: leaving
      does not clear the diagram or the drop times, and a site that is already
      in the diagram is not moved. */
  lemma RejoinAgreesIff(v: Peer, self: Node)
    requires Inv(v) && self.id == v.self.id
    ensures Agree(JoinAt(Leave(v), self)) <==>
            v.order == [self.id] && self.id in v.nodes && v.nodes[self.id].center == self.center
  {
    var n := JoinAt(Leave(v), self);
    assert AgreeOn(v, self.id);
    if v.order == [self.id] && v.nodes[self.id].center == self.center {
      forall id
        ensures AgreeOn(n, id)
      {
        assert AgreeOn(v, id);
      }
    } else if v.order == [self.id] {
      assert !AgreeOn(n, self.id);
    } else {
      assert v.order[1] in v.order && v.order[1] != self.id;
      assert AgreeOn(v, v.order[1]) && !AgreeOn(n, v.order[1]);
    }
  }

  // ---------------------------------------------------------------- the closest neighbour

  lemma {:induction false} ClosestUpToIsNearest(v: Peer, at: Pos, metric: Metric, n: nat)
    requires 2 <= n <= |v.order| && forall i :: 0 <= i < |v.order| ==> v.order[i] in v.nodes
    ensures var c := ClosestUpTo(v, at, metric, n);
            c in v.nodes && forall i :: 1 <= i < n ==>
              metric(at, v.nodes[c].center) <= metric(at, v.nodes[v.order[i]].center)
  {
    if n > 2 {
      ClosestUpToIsNearest(v, at, metric, n - 1);
    }
  }

  // Of equally near ones, the one that arrived first is found.
  lemma {:induction false} ClosestIsFirst(v: Peer, at: Pos, metric: Metric, n: nat) returns (k: nat)
    requires 2 <= n <= |v.order| && forall i :: 0 <= i < |v.order| ==> v.order[i] in v.nodes
    ensures 1 <= k < n && v.order[k] == ClosestUpTo(v, at, metric, n)
    ensures forall i :: 1 <= i < k ==>
              metric(at, v.nodes[v.order[k]].center) < metric(at, v.nodes[v.order[i]].center)
  {
    k := 1;
    if n > 2 {
      var before := n - 1;
      k := ClosestIsFirst(v, at, metric, before);
      ClosestUpToIsNearest(v, at, metric, before);
      var id := v.order[before];
      if metric(at, v.nodes[id].center) < metric(at, v.nodes[ClosestUpTo(v, at, metric, before)].center) {
        k := before;
      }
    }
  }

  /** The closest neighbour is a neighbour other than the peer itself, and none
      is nearer; there is none only if the peer is alone. */
  lemma ClosestIsNearest(v: Peer, at: Pos, metric: Metric)
    requires Inv(v) && 0 !in v.nodes
    ensures forall i :: 0 <= i < |v.order| ==> v.order[i] in v.nodes
    ensures var c := Closest(v, at, metric);
            && (c == 0 <==> v.nodes.Keys == {v.self.id})
            && (c != 0 ==> c in v.nodes && c != v.self.id)
            && (c != 0 ==> forall id :: id in v.nodes && id != v.self.id ==>
                  metric(at, v.nodes[c].center) <= metric(at, v.nodes[id].center))
  {
    forall i | 0 <= i < |v.order|
      ensures v.order[i] in v.nodes
    {
      assert v.order[i] in v.order && AgreeOn(v, v.order[i]);
    }
    var n := |v.order|;
    if n > 1 {
      ClosestUpToIsNearest(v, at, metric, n);
      assert v.order[1] in v.nodes.Keys && v.order[1] != v.self.id;
      forall id | id in v.nodes && id != v.self.id
        ensures exists i :: 1 <= i < n && v.order[i] == id
      {
        assert AgreeOn(v, id);
      }
    } else {
      forall id
        ensures id in v.nodes <==> id == v.self.id
      {
        assert AgreeOn(v, id);
      }
    }
  }

  // ---------------------------------------------------------------- latest position wins

  // Record i is the last of the latest of a list of records.
  ghost predicate LatestAt(list: seq<Node>, i: nat) {
    && i < |list|
    && (forall j :: 0 <= j < |list| ==> list[j].time <= list[i].time)
    && (forall j :: i < j < |list| ==> list[j].time < list[i].time)
  }

  lemma {:induction false} LatestIs(first: Node, list: seq<Node>) returns (i: nat)
    ensures LatestAt([first] + list, i) && ([first] + list)[i] == Latest(first, list)
  {
    if list == [] {
      return 0;
    }
    var n := |list| - 1;
    var k := LatestIs(first, list[..n]);
    assert [first] + list == ([first] + list[..n]) + [list[n]];
    if list[n].time < Latest(first, list[..n]).time {
      i := k;
    } else {
      i := |list|;
    }
  }

  ghost predicate DistinctTimes(list: seq<Node>) {
    forall i, j :: 0 <= i < j < |list| ==> list[i].time != list[j].time
  }

  lemma FoundIn(a: seq<Node>, b: seq<Node>, k: nat) returns (l: nat)
    requires multiset(a) == multiset(b) && k < |a|
    ensures l < |b| && b[l] == a[k]
  {
    assert a[k] in multiset(a);
    assert a[k] in b;
    l :| 0 <= l < |b| && b[l] == a[k];
  }

  // The last of the latest is as late as any record in another order.
  lemma NoneLater(first: Node, a: seq<Node>, b: seq<Node>, i: nat, j: nat)
    requires LatestAt([first] + a, i) && LatestAt([first] + b, j) && multiset(a) == multiset(b)
    ensures ([first] + a)[i].time <= ([first] + b)[j].time
    ensures i > 0 && j == 0 ==> ([first] + a)[i].time < ([first] + b)[j].time
  {
    if i > 0 {
      var l := FoundIn(a, b, i - 1);
      assert ([first] + b)[l + 1] == b[l];
    } else {
      assert ([first] + b)[0] == first;
    }
  }

  // With distinct times after the first, only one record can be the last of the
  // latest, in whatever order they come.
  lemma LatestIsUnique(first: Node, a: seq<Node>, b: seq<Node>, i: nat, j: nat)
    requires LatestAt([first] + a, i) && LatestAt([first] + b, j)
    requires multiset(a) == multiset(b) && DistinctTimes(a)
    ensures ([first] + a)[i] == ([first] + b)[j]
  {
    NoneLater(first, a, b, i, j);
    NoneLater(first, b, a, j, i);
    if i > 0 && j > 0 {
      var l := FoundIn(b, a, j - 1);
      assert a[l].time == a[i - 1].time;
    }
  }

  /** Any number of updates, for any neighbours and in any order, leave each
      neighbour, in the table and in the diagram, with the last of the latest
      records of it. */
  lemma {:induction false} UpdatesKeepLatest(v: Peer, list: seq<Node>, id: Id)
    requires Inv(v) && id in v.nodes
    ensures var n := UpdateAll(v, list);
            && Inv(n) && id in n.nodes
            && n.nodes[id] == Latest(v.nodes[id], OfId(list, id))
            && id in n.sites && n.sites[id] == n.nodes[id].center
  {
    if list == [] {
      assert AgreeOn(v, id);
    } else {
      var before, node := list[..|list| - 1], list[|list| - 1];
      UpdatesKeepLatest(v, before, id);
      UpdateKeepsInv(UpdateAll(v, before), node);
      assert AgreeOn(UpdateAll(v, list), id);
      if node.id == id {
        assert OfId(list, id)[..|OfId(list, id)| - 1] == OfId(before, id);
      } else {
        assert OfId(list, id) == OfId(before, id);
      }
    }
  }

  /** So with distinct times the order of arrival does not matter. */
  lemma {:induction false} ArrivalOrderDoesNotMatter(v: Peer, a: seq<Node>, b: seq<Node>, id: Id)
    requires Inv(v) && id in v.nodes
    requires multiset(OfId(a, id)) == multiset(OfId(b, id)) && DistinctTimes(OfId(a, id))
    ensures id in UpdateAll(v, a).nodes && id in UpdateAll(v, b).nodes
    ensures UpdateAll(v, a).nodes[id] == UpdateAll(v, b).nodes[id]
  {
    UpdatesKeepLatest(v, a, id);
    UpdatesKeepLatest(v, b, id);
    var first := v.nodes[id];
    var i := LatestIs(first, OfId(a, id));
    var j := LatestIs(first, OfId(b, id));
    LatestIsUnique(first, OfId(a, id), OfId(b, id), i, j);
  }

  /** The batch of nodes heard of keeps the last of the latest records too. */
  lemma {:induction false} HearingKeepsLatest(heard: map<Id, Node>, list: seq<Node>, n: nat, id: Id)
    requires n <= |list| && id in heard
    ensures var h := HearFirst(heard, list, n);
            id in h && h[id] == Latest(heard[id], OfId(list[..n], id))
  {
    if n > 0 {
      HearingKeepsLatest(heard, list, n - 1, id);
      assert list[..n][..n - 1] == list[..n - 1];
      if list[n - 1].id == id {
        assert OfId(list[..n], id)[..|OfId(list[..n], id)| - 1] == OfId(list[..n - 1], id);
      } else {
        assert OfId(list[..n], id) == OfId(list[..n - 1], id);
      }
    }
  }

  // No node that stays is taken back to an earlier record.
  ghost predicate NoneEarlier(v: Peer, w: Peer) {
    forall id :: id in v.nodes && id in w.nodes ==> v.nodes[id].time <= w.nodes[id].time
  }

  lemma {:induction false} SortOutNoneEarlier(v: Peer, keys: seq<Id>, n: nat)
    requires n <= |keys| && forall i :: 0 <= i < |keys| ==> keys[i] in v.heard
    ensures NoneEarlier(v, SortOut(v, keys, n))
  {
    if n > 0 {
      SortOutNoneEarlier(v, keys, n - 1);
    }
  }

  lemma ContactNoneEarlier(v: Peer, relevant: Relevance)
    requires Inv(v)
    ensures NoneEarlier(v, ContactNew(v, relevant))
  {
    var keys := Ascending(v.heard.Keys);
    SortOutNoneEarlier(v, keys, |keys|);
    SortOutIs(v, keys, |keys|);
    var w, list := SortOut(v, keys, |keys|), Unknown(v, keys, |keys|);
    GreetIs(w, list, |list|, relevant);
  }

  lemma MoveSelfIs(v: Peer, node: Node, failed: seq<Id>)
    requires Inv(v) && node.id == v.self.id && v.self.id !in failed
    ensures Inv(MoveSelf(v, node, failed)) && NoneEarlier(v, MoveSelf(v, node, failed))
  {
    SelfKeepsInv(v, node);
    var u := Update(v.(self := node), node);
    UpdateKeepsInv(v.(self := node), node);
    assert NoneEarlier(v, u);
    assert forall i :: 0 <= i < |failed| ==> failed[i] in failed;
    DeleteFirstKeepsInv(u, failed, |failed|);
  }

  lemma DropsNoneEarlier(v: Peer, relevant: set<Id>, now: Time, grace: Time)
    requires Inv(v)
    ensures NoneEarlier(v, RemoveNonOverlapped(v, relevant, now, grace))
  {
    RemoveNonOverlappedIs(v, relevant, now, grace);
  }

  lemma HelloNoneEarlier(v: Peer, from: Id, node: Node, list: Known, lookedUp: bool)
    requires Inv(v) && node.id == from
    ensures NoneEarlier(v, Hello(v, from, node, list, lookedUp))
  {
  }

  lemma StepNoneEarlier(v: Peer, step: Step)
    requires Inv(v) && Polite(v, step)
    ensures NoneEarlier(v, Next(v, step))
  {
    match step
    case DoQuery(joiner) =>
    case DoHello(from, node, list, lookedUp) => HelloNoneEarlier(v, from, node, list, lookedUp);
    case DoEnclosing(_, _, _) =>
    case DoHelloReply(from, center) =>
    case DoMove(from, node) =>
    case DoNotified(_) =>
    case DoBye(from) => DeleteKeepsInv(v, from);
    case DoMoveSelf(node, failed) => MoveSelfIs(v, node, failed);
    case DoContact(relevant) => ContactNoneEarlier(v, relevant);
    case DoDiscover(_) =>
    case DoRemove(relevant, now, grace) => DropsNoneEarlier(v, relevant, now, grace);
  }

  /** Over every run, between a neighbour's insertion and its deletion its
      recorded time never goes back. */
  lemma {:induction false} TimesNeverFall(vs: seq<Peer>, steps: seq<Step>, self: Node, i: nat, j: nat, id: Id)
    requires Runs(vs, steps, self) && i <= j < |vs| && forall k :: i <= k <= j ==> id in vs[k].nodes
    ensures vs[i].nodes[id].time <= vs[j].nodes[id].time
    decreases j - i
  {
    if i < j {
      RunKeepsInv(vs, steps, self, i);
      StepNoneEarlier(vs[i], steps[i]);
      assert id in vs[i].nodes && id in vs[i + 1].nodes;
      TimesNeverFall(vs, steps, self, i + 1, j, id);
    }
  }
}
