/** What each step leaves in a peer's tables, told by what it brings: who becomes
    or stays a neighbour, with which record, until when, and who is heard of. */
module VonOutcomes {
  import opened Options
  import opened OrderedKeys
  import opened Sequences
  import opened Von
  import opened VonRuns

  // ---------------------------------------------------------------- what a step brings

  // An unknown node that a step makes a neighbour.
  predicate Brings(v: Peer, step: Step, id: Id) {
    match step
    case DoQuery(joiner) => joiner.id == id
    case DoHello(from, _, _, _) => from == id
    case DoHelloReply(from, _) => from == id && id in v.potential
    case _ => false
  }

  // A neighbour that a step takes away: one that leaves, one that cannot be sent
  // to, or one that is not relevant when its time is over.
  predicate Takes(v: Peer, step: Step, id: Id) {
    match step
    case DoBye(from) => from == id
    case DoMoveSelf(_, failed) => id in failed
    case DoRemove(near, now, _) => id != v.self.id && id !in near && id in v.drop && v.drop[id] <= now
    case _ => false
  }

  // What a step reports of a node.
  function Reported(v: Peer, step: Step, id: Id): Option<Node> {
    match step
    case DoQuery(joiner) => if joiner.id == id && id !in v.nodes then Some(joiner) else None
    case DoHello(from, node, _, _) => if from == id then Some(node) else None
    case DoHelloReply(from, center) =>
      if from == id && id in v.potential && id !in v.nodes then Some(v.potential[id].(center := center)) else None
    case DoMove(from, node) => if node.id == id && from in v.nodes then Some(node) else None
    case DoMoveSelf(node, _) => if node.id == id then Some(node) else None
    case DoContact(_) => if id in v.heard then Some(v.heard[id]) else None
    case _ => None
  }

  ghost predicate NodeAs(v: Peer, step: Step, w: Peer, id: Id) {
    && (id in w.nodes <==> if id in v.nodes then !Takes(v, step, id) else Brings(v, step, id))
    && (id in w.nodes ==>
          if id in v.nodes then
            w.nodes[id] == match Reported(v, step, id) case Some(r) => Later(v.nodes[id], r) case None => v.nodes[id]
          else Reported(v, step, id) == Some(w.nodes[id]))
  }

  function KnownBy(v: Peer, id: Id): Known {
    if id in v.states then v.states[id] else map[]
  }

  ghost predicate KnownAs(v: Peer, step: Step, w: Peer, id: Id) {
    id in w.nodes ==>
      && id in w.states
      && w.states[id] ==
         match step
         case DoHello(from, _, list, _) => if from == id then list else KnownBy(v, id)
         case DoEnclosing(from, list, _) => if from == id then list else KnownBy(v, id)
         case DoDiscover(found) => if id in found && id != v.self.id then found[id] else KnownBy(v, id)
         case _ => KnownBy(v, id)
  }

  ghost predicate DropAs(v: Peer, step: Step, w: Peer, id: Id) {
    id in w.nodes ==>
      && id in w.drop
      && w.drop[id] ==
         if step.DoRemove? && (id == v.self.id || id in step.near) then step.now + step.grace
         else if id in v.drop then v.drop[id]
         else 0
  }

  // A report that is taken: not an earlier one.
  predicate Taken(v: Peer, step: Step, id: Id) {
    id in v.nodes && match Reported(v, step, id) case Some(r) => v.nodes[id].time <= r.time case None => false
  }

  ghost predicate StatusAs(v: Peer, step: Step, w: Peer, id: Id) {
    if id in w.nodes && id !in v.nodes then id in w.status && w.status[id] == Inserted
    else if id in v.nodes && id !in w.nodes then id in w.status && w.status[id] == Deleted
    else if Taken(v, step, id) then
      id in w.status && w.status[id] == if id in v.status && v.status[id] == Inserted then Inserted else Updated
    else (id in w.status <==> id in v.status) && (id in v.status ==> w.status[id] == v.status[id])
  }

  ghost predicate As(v: Peer, step: Step, w: Peer, id: Id) {
    NodeAs(v, step, w, id) && KnownAs(v, step, w, id) && DropAs(v, step, w, id) && StatusAs(v, step, w, id)
  }

  // ---------------------------------------------------------------- one step each

  lemma QueryIs(v: Peer, step: Step, id: Id)
    requires Inv(v) && step.DoQuery?
    ensures As(v, step, Next(v, step), id)
  {
    assert AgreeOn(v, id);
  }

  lemma HelloReplyIs(v: Peer, step: Step, id: Id)
    requires Inv(v) && step.DoHelloReply?
    ensures As(v, step, Next(v, step), id)
  {
    assert AgreeOn(v, id);
  }

  lemma MoveIs(v: Peer, step: Step, id: Id)
    requires Inv(v) && step.DoMove?
    ensures As(v, step, Next(v, step), id)
  {
    assert AgreeOn(v, id);
  }

  lemma ByeIs(v: Peer, step: Step, id: Id)
    requires Inv(v) && step.DoBye?
    ensures As(v, step, Next(v, step), id)
  {
    assert AgreeOn(v, id) && AgreeOn(v, step.from);
  }

  lemma HelloOfKnown(v: Peer, step: Step, id: Id)
    requires Inv(v) && Polite(v, step) && step.DoHello? && step.from in v.nodes
    ensures As(v, step, Next(v, step), id)
  {
    assert AgreeOn(v, id);
  }

  lemma HelloOfUnknown(v: Peer, step: Step, id: Id)
    requires Inv(v) && Polite(v, step) && step.DoHello? && step.from !in v.nodes
    ensures As(v, step, Next(v, step), id)
  {
    assert AgreeOn(v, id);
  }

  lemma OtherIs(v: Peer, step: Step, id: Id)
    requires Inv(v) && Polite(v, step)
    requires step.DoEnclosing? || step.DoNotified? || step.DoDiscover?
    ensures As(v, step, Next(v, step), id)
  {
    assert AgreeOn(v, id);
  }

  // w is v with these neighbours deleted, for one node.
  ghost predicate DeletedFor(v: Peer, w: Peer, gone: set<Id>, id: Id) {
    && w.self == v.self && w.heard == v.heard && w.potential == v.potential
    && (id in w.nodes <==> id in v.nodes && id !in gone)
    && (id in w.nodes ==>
          && w.nodes[id] == v.nodes[id]
          && (id in v.states ==> id in w.states && w.states[id] == v.states[id])
          && (id in v.drop ==> id in w.drop && w.drop[id] == v.drop[id]))
    && (if id in v.nodes && id !in w.nodes then id in w.status && w.status[id] == Deleted
        else (id in w.status <==> id in v.status) && (id in v.status ==> w.status[id] == v.status[id]))
  }

  lemma DeleteOne(v: Peer, w: Peer, gone: set<Id>, key: Id, all: set<Id>, id: Id)
    requires DeletedFor(v, w, gone, id) && all == gone + {key}
    ensures DeletedFor(v, Delete(w, key), all, id)
  {
  }

  lemma {:induction false} DeleteFirstFor(v: Peer, list: seq<Id>, n: nat, id: Id)
    requires n <= |list|
    ensures DeletedFor(v, DeleteFirst(v, list, n), FirstOf(list, n), id)
  {
    if n > 0 {
      var before := n - 1;
      DeleteFirstFor(v, list, before, id);
      FirstOfGrows(list, before);
      DeleteOne(v, DeleteFirst(v, list, before), FirstOf(list, before), list[before], FirstOf(list, n), id);
    }
  }

  lemma MoveSelfAs(v: Peer, step: Step, w: Peer, gone: set<Id>, id: Id)
    requires Inv(v) && Polite(v, step) && step.DoMoveSelf? && (id in gone <==> id in step.failed)
    requires DeletedFor(Update(v.(self := step.node), step.node), w, gone, id)
    ensures As(v, step, w, id)
  {
    assert AgreeOn(v, id);
  }

  lemma MoveSelfFor(v: Peer, step: Step, id: Id)
    requires Inv(v) && Polite(v, step) && step.DoMoveSelf?
    ensures As(v, step, Next(v, step), id)
  {
    var n := |step.failed|;
    DeleteFirstFor(Update(v.(self := step.node), step.node), step.failed, n, id);
    MoveSelfAs(v, step, Next(v, step), FirstOf(step.failed, n), id);
  }

  lemma RemoveFor(v: Peer, step: Step, id: Id)
    requires Inv(v) && step.DoRemove?
    ensures As(v, step, Next(v, step), id)
  {
    assert AgreeOn(v, id);
    RemoveNonOverlappedIs(v, step.near, step.now, step.grace);
    var gone := Drops(v, step.near, step.now);
    var kept := map k | k in v.drop.Keys + v.nodes.Keys && k !in gone ::
                  DropTime(v, k, step.near, step.now, step.grace);
    DeleteFirstFor(v.(drop := kept), Ascending(gone), |Ascending(gone)|, id);
    assert id in FirstOf(Ascending(gone), |Ascending(gone)|) <==> id in Ascending(gone);
  }

  // ---------------------------------------------------------------- the batch of nodes heard of

  function Center(v: Peer, id: Id): Pos
    requires id in v.nodes || id in v.heard
  {
    if id !in v.nodes then v.heard[id].center
    else if id in v.heard then Later(v.nodes[id], v.heard[id]).center
    else v.nodes[id].center
  }

  // The diagram in which new neighbours are judged: neighbours where they are
  // now, and everyone heard of where that is said to be.
  function Trial(v: Peer): map<Id, Pos> {
    map id | id in v.nodes.Keys + v.heard.Keys :: Center(v, id)
  }

  // What sorting out the first n has done to one node.
  ghost predicate SortedFor(v: Peer, w: Peer, done: set<Id>, id: Id)
    requires done <= v.heard.Keys
  {
    && w == v.(nodes := w.nodes, sites := w.sites, status := w.status)
    && (id in w.nodes <==> id in v.nodes)
    && (id in v.nodes ==>
          w.nodes[id] == if id in done then Later(v.nodes[id], v.heard[id]) else v.nodes[id])
    && (id in w.sites <==> id in v.nodes || id in done)
    && (id in w.sites ==> w.sites[id] == if id in w.nodes then w.nodes[id].center else v.heard[id].center)
    && (if id in done && id in v.nodes && v.nodes[id].time <= v.heard[id].time then
          id in w.status && w.status[id] == if id in v.status && v.status[id] == Inserted then Inserted else Updated
        else (id in w.status <==> id in v.status) && (id in v.status ==> w.status[id] == v.status[id]))
  }

  lemma SortOne(v: Peer, w: Peer, done: set<Id>, key: Id, id: Id)
    requires Inv(v) && done <= v.heard.Keys && key in v.heard && key !in done
    requires SortedFor(v, w, done, id) && SortedFor(v, w, done, key) && w.nodes.Keys == v.nodes.Keys
    ensures var node := v.heard[key];
            var x := if key in w.nodes then Update(w, node) else w.(sites := AddSite(w.sites, key, node.center));
            SortedFor(v, x, done + {key}, id)
  {
  }

  lemma {:induction false} SortOutFor(v: Peer, keys: seq<Id>, n: nat, id: Id)
    requires Inv(v) && n <= |keys| && NoRepeats(keys) && forall i :: 0 <= i < |keys| ==> keys[i] in v.heard
    ensures FirstOf(keys, n) <= v.heard.Keys
    ensures SortedFor(v, SortOut(v, keys, n), FirstOf(keys, n), id)
  {
    assert AgreeOn(v, id);
    if n > 0 {
      var before, key := n - 1, keys[n - 1];
      SortOutFor(v, keys, before, id);
      SortOutFor(v, keys, before, key);
      FirstOfGrows(keys, before);
      SortOne(v, SortOut(v, keys, before), FirstOf(keys, before), key, id);
    }
  }

  lemma {:induction false} UnknownIs(v: Peer, keys: seq<Id>, n: nat, id: Id)
    requires HeardFine(v) && n <= |keys| && forall i :: 0 <= i < |keys| ==> keys[i] in v.heard
    ensures id in Unknown(v, keys, n) <==> id in FirstOf(keys, n) && id !in v.nodes
  {
    if n > 0 {
      UnknownIs(v, keys, n - 1, id);
      FirstOfGrows(keys, n - 1);
    }
  }

  // g is v after greeting these, for one node.
  ghost predicate GreetedFor(v: Peer, g: Peer, relevant: Relevance, met: set<Id>, id: Id)
    requires met <= v.heard.Keys
  {
    && g == v.(potential := g.potential)
    && if id in met && relevant(v.sites, v.heard[id], v.self) then
         id in g.potential && g.potential[id] == v.heard[id]
       else (id in g.potential <==> id in v.potential) && (id in v.potential ==> g.potential[id] == v.potential[id])
  }

  lemma {:induction false} GreetFor(v: Peer, list: seq<Id>, n: nat, relevant: Relevance, id: Id)
    requires HeardFine(v) && n <= |list| && forall i :: 0 <= i < |list| ==> list[i] in v.heard
    ensures FirstOf(list, n) <= v.heard.Keys
    ensures GreetedFor(v, Greet(v, list, n, relevant), relevant, FirstOf(list, n), id)
  {
    if n > 0 {
      GreetFor(v, list, n - 1, relevant, id);
      FirstOfGrows(list, n - 1);
    }
  }

  ghost predicate Sorted(v: Peer, w: Peer) {
    forall id :: SortedFor(v, w, v.heard.Keys, id)
  }

  lemma {:induction false} SortOutAll(v: Peer, keys: seq<Id>, n: nat, id: Id)
    requires Inv(v) && keys == Ascending(v.heard.Keys) && n == |keys|
    ensures SortedFor(v, SortOut(v, keys, n), v.heard.Keys, id)
  {
    assert forall k :: k in keys <==> k in FirstOf(keys, n);
    assert FirstOf(keys, n) == v.heard.Keys;
    SortOutFor(v, keys, n, id);
  }

  lemma {:induction false} SortOutSorts(v: Peer, keys: seq<Id>, n: nat, w: Peer)
    requires Inv(v) && keys == Ascending(v.heard.Keys) && n == |keys| && w == SortOut(v, keys, n)
    ensures Sorted(v, w)
  {
    forall id
      ensures SortedFor(v, w, v.heard.Keys, id)
    {
      SortOutAll(v, keys, n, id);
    }
  }

  lemma SortedSites(v: Peer, w: Peer)
    requires Sorted(v, w)
    ensures w.sites == Trial(v)
  {
    forall id
      ensures id in w.sites <==> id in Trial(v)
      ensures id in w.sites ==> w.sites[id] == Trial(v)[id]
    {
      assert SortedFor(v, w, v.heard.Keys, id);
    }
  }

  // Whether a node is heard of, is no neighbour, and is relevant in the trial.
  ghost predicate Wanted(v: Peer, relevant: Relevance, id: Id) {
    id in v.heard && id !in v.nodes && relevant(Trial(v), v.heard[id], v.self)
  }

  // n is v after everyone heard of has been sorted out, for one node.
  ghost predicate Contacted(v: Peer, relevant: Relevance, n: Peer, id: Id) {
    && n == v.(nodes := n.nodes, sites := n.sites, status := n.status, potential := n.potential, heard := map[])
    && (exists w :: SortedFor(v, w, v.heard.Keys, id) && w.nodes == n.nodes && w.status == n.status)
    && if Wanted(v, relevant, id) then id in n.potential && n.potential[id] == v.heard[id]
       else (id in n.potential <==> id in v.potential) && (id in v.potential ==> n.potential[id] == v.potential[id])
  }

  lemma {:induction false} Greeted(v: Peer, w: Peer, list: seq<Id>, relevant: Relevance, g: Peer, n: Peer, id: Id)
    requires SortedFor(v, w, v.heard.Keys, id) && w.sites == Trial(v)
    requires HeardFine(w) && forall i :: 0 <= i < |list| ==> list[i] in w.heard
    requires id in list <==> id in v.heard && id !in v.nodes
    requires g == Greet(w, list, |list|, relevant) && n == g.(sites := n.sites, heard := map[])
    ensures Contacted(v, relevant, n, id)
  {
    GreetFor(w, list, |list|, relevant, id);
    assert id in FirstOf(list, |list|) <==> id in list;
  }

  lemma {:induction false} UnknownOnes(v: Peer, keys: seq<Id>, list: seq<Id>, id: Id)
    requires HeardFine(v) && keys == Ascending(v.heard.Keys) && list == Unknown(v, keys, |keys|)
    ensures id in list <==> id in v.heard && id !in v.nodes
  {
    UnknownIs(v, keys, |keys|, id);
    assert id in FirstOf(keys, |keys|) <==> id in keys;
  }

  lemma ContactIs(v: Peer, relevant: Relevance, id: Id)
    requires Inv(v)
    ensures Contacted(v, relevant, ContactNew(v, relevant), id)
  {
    var keys := Ascending(v.heard.Keys);
    var w, list := SortOut(v, keys, |keys|), Unknown(v, keys, |keys|);
    SortOutSorts(v, keys, |keys|, w);
    SortedSites(v, w);
    UnknownOnes(v, keys, list, id);
    Greeted(v, w, list, relevant, Greet(w, list, |list|, relevant), ContactNew(v, relevant), id);
  }

  /** The batch of nodes heard of: exactly those that are not neighbours and are
      relevant to the peer become potential neighbours, judged in the diagram of
      the neighbours and everyone heard of; the batch is then forgotten. */
  lemma RelevantBecomePotential(v: Peer, relevant: Relevance, id: Id)
    requires Inv(v)
    ensures var n := ContactNew(v, relevant);
            && n.heard == map[]
            && if id in v.heard && id !in v.nodes && relevant(Trial(v), v.heard[id], v.self) then
                 id in n.potential && n.potential[id] == v.heard[id]
               else
                 && (id in n.potential <==> id in v.potential)
                 && (id in v.potential ==> n.potential[id] == v.potential[id])
  {
    ContactIs(v, relevant, id);
  }

  lemma ContactedAs(v: Peer, step: Step, n: Peer, id: Id)
    requires Inv(v) && step.DoContact? && Contacted(v, step.relevant, n, id)
    ensures As(v, step, n, id)
  {
    assert AgreeOn(v, id);
  }

  lemma ContactFor(v: Peer, step: Step, id: Id)
    requires Inv(v) && step.DoContact?
    ensures As(v, step, Next(v, step), id)
  {
    ContactIs(v, step.relevant, id);
    ContactedAs(v, step, ContactNew(v, step.relevant), id);
  }

  /** Over a step: who is a neighbour afterwards, and for each its record (the
      later of the one held and the one reported), what it is known to know, its
      drop time, and how it is marked. */
  lemma StepLeaves(v: Peer, step: Step, id: Id)
    requires Inv(v) && Polite(v, step)
    ensures As(v, step, Next(v, step), id)
  {
    match step
    case DoQuery(_) => QueryIs(v, step, id);
    case DoHello(from, _, _, _) => {
      if from in v.nodes {
        HelloOfKnown(v, step, id);
      } else {
        HelloOfUnknown(v, step, id);
      }
    }
    case DoEnclosing(_, _, _) => OtherIs(v, step, id);
    case DoHelloReply(_, _) => HelloReplyIs(v, step, id);
    case DoMove(_, _) => MoveIs(v, step, id);
    case DoNotified(_) => OtherIs(v, step, id);
    case DoBye(_) => ByeIs(v, step, id);
    case DoMoveSelf(_, _) => MoveSelfFor(v, step, id);
    case DoContact(_) => ContactFor(v, step, id);
    case DoDiscover(_) => OtherIs(v, step, id);
    case DoRemove(_, _, _) => RemoveFor(v, step, id);
  }

  /** A neighbour that says good-bye is in none of the tables afterwards, and
      nobody else is taken out of them. */
  lemma ByeForgets(v: Peer, from: Id)
    requires Inv(v) && from != v.self.id
    ensures var n := Bye(v, from);
            && from !in n.nodes && from !in n.states && from !in n.drop && from !in n.sites && from !in n.order
            && n.nodes == v.nodes - {from}
  {
    assert AgreeOn(v, from);
    DeleteKeepsInv(v, from);
    assert v.nodes - {from} == if from in v.nodes then Delete(v, from).nodes else v.nodes;
    assert AgreeOn(Bye(v, from), from);
  }

  // ---------------------------------------------------------------- who is heard of

  lemma LatestSnoc(of: seq<Node>, last: Node)
    requires of != []
    ensures Latest((of + [last])[0], (of + [last])[1..]) == Later(Latest(of[0], of[1..]), last)
  {
    assert (of + [last])[1..] == of[1..] + [last];
    assert (of[1..] + [last])[..|of| - 1] == of[1..];
  }

  /** Of a node not heard of before, the last of the latest records that come is
      kept; nobody else is heard of. */
  lemma {:induction false} HearingIsNews(heard: map<Id, Node>, list: seq<Node>, n: nat, id: Id)
    requires n <= |list| && id !in heard
    ensures var h, of := HearFirst(heard, list, n), OfId(list[..n], id);
            && (id in h <==> of != [])
            && (id in h ==> h[id] == Latest(of[0], of[1..]))
  {
    if n > 0 {
      HearingIsNews(heard, list, n - 1, id);
      assert list[..n][..n - 1] == list[..n - 1];
      var of, last := OfId(list[..n - 1], id), list[n - 1];
      assert OfId(list[..n], id) == of + if last.id == id then [last] else [];
      if last.id == id && of != [] {
        LatestSnoc(of, last);
      } else {
        assert of + [] == of;
      }
    }
  }

  // What a step makes of the other tables.
  ghost predicate HearsAs(v: Peer, step: Step, w: Peer) {
    && w.self == (if step.DoMoveSelf? then step.node else v.self)
    && w.heard == (if step.DoNotified? then HearFirst(v.heard, step.heard, |step.heard|)
                   else if step.DoContact? then map[] else v.heard)
    && (!step.DoContact? ==>
          w.potential == if step.DoHelloReply? then v.potential - {step.from} else v.potential)
  }

  lemma MessageHears(v: Peer, step: Step)
    requires Inv(v) && (step.DoQuery? || step.DoEnclosing? || step.DoMove? || step.DoNotified? || step.DoDiscover?)
    ensures HearsAs(v, step, Next(v, step))
  {
  }

  lemma AnswerHears(v: Peer, step: Step)
    requires Inv(v) && (step.DoHelloReply? || step.DoBye?)
    ensures HearsAs(v, step, Next(v, step))
  {
    assert step.DoHelloReply? && step.from !in v.potential ==> v.potential - {step.from} == v.potential;
  }

  // Taking in a record or a list changes none of them, nor the list of neighbours
  // but by what is new.
  lemma GreeterIsTaken(v: Peer, node: Node, u: Peer)
    requires u == if node.id in v.nodes then Update(v, node) else Insert(v, node)
    ensures u.self == v.self && u.heard == v.heard && u.potential == v.potential
    ensures u.order == if node.id in v.nodes then v.order else v.order + [node.id]
  {
  }

  lemma ListIsTaken(u: Peer, from: Id, list: Known, lookedUp: bool)
    ensures var w := Enclosing(u, from, list, lookedUp);
            w.self == u.self && w.heard == u.heard && w.potential == u.potential && w.order == u.order
  {
  }

  lemma HelloIsTaken(v: Peer, from: Id, node: Node, list: Known, lookedUp: bool)
    requires node.id == from
    ensures var w := Hello(v, from, node, list, lookedUp);
            && w.self == v.self && w.heard == v.heard && w.potential == v.potential
            && w.order == if from in v.nodes then v.order else v.order + [from]
  {
    var u := if from in v.nodes then Update(v, node) else Insert(v, node);
    GreeterIsTaken(v, node, u);
    ListIsTaken(u, from, list, lookedUp);
  }

  /** The other tables: a peer is what it last said it is, hears of nodes until
      the next tick, and forgets a potential neighbour when that answers. */
  lemma StepHears(v: Peer, step: Step)
    requires Inv(v) && Polite(v, step)
    ensures HearsAs(v, step, Next(v, step))
  {
    if step.DoMoveSelf? {
      MoveSelfHears(v, step.node, step.failed);
    } else if step.DoContact? {
      ContactIs(v, step.relevant, 0);
    } else if step.DoRemove? {
      RemoveHears(v, step.near, step.now, step.grace);
    } else if step.DoHello? {
      HelloIsTaken(v, step.from, step.node, step.list, step.lookedUp);
    } else if step.DoHelloReply? || step.DoBye? {
      AnswerHears(v, step);
    } else {
      MessageHears(v, step);
    }
  }

  lemma MoveSelfHears(v: Peer, node: Node, failed: seq<Id>)
    ensures var w := MoveSelf(v, node, failed);
            w.self == node && w.heard == v.heard && w.potential == v.potential
  {
    DeleteFirstFor(Update(v.(self := node), node), failed, |failed|, 0);
  }

  lemma RemoveHears(v: Peer, near: set<Id>, now: Time, grace: Time)
    ensures var w := RemoveNonOverlapped(v, near, now, grace);
            w.self == v.self && w.heard == v.heard && w.potential == v.potential
  {
    var gone := Drops(v, near, now);
    var kept := map id | id in v.drop.Keys + v.nodes.Keys && id !in gone :: DropTime(v, id, near, now, grace);
    DeleteFirstFor(v.(drop := kept), Ascending(gone), |Ascending(gone)|, 0);
  }

  // ---------------------------------------------------------------- the order of arrival

  function Staying(order: seq<Id>, gone: set<Id>): seq<Id> {
    if order == [] then []
    else (if order[0] in gone then [] else [order[0]]) + Staying(order[1..], gone)
  }

  lemma {:induction false} NobodyGoes(order: seq<Id>, gone: set<Id>)
    requires forall id :: id in order ==> id !in gone
    ensures Staying(order, gone) == order
  {
    if order != [] {
      assert order == [order[0]] + order[1..];
      NobodyGoes(order[1..], gone);
    }
  }

  lemma {:induction false} WithoutIs(order: seq<Id>, id: Id)
    requires NoRepeats(order)
    ensures Without(order, id) == Staying(order, {id})
  {
    if order != [] {
      var rest := order[1..];
      assert forall i :: 0 <= i < |rest| ==> rest[i] == order[i + 1];
      if order[0] == id {
        assert forall k :: k in rest ==> k != id;
        NobodyGoes(rest, {id});
      } else {
        WithoutIs(rest, id);
      }
    }
  }

  lemma {:induction false} StayTwice(order: seq<Id>, a: set<Id>, b: set<Id>, all: set<Id>)
    requires all == a + b
    ensures Staying(Staying(order, a), b) == Staying(order, all)
  {
    if order != [] {
      var rest := Staying(order[1..], a);
      StayTwice(order[1..], a, b, all);
      assert [] + rest == rest && ([order[0]] + rest)[1..] == rest;
    }
  }

  lemma {:induction false} DeletedOrder(v: Peer, list: seq<Id>, n: nat)
    requires Inv(v) && n <= |list| && forall i :: 0 <= i < |list| ==> list[i] != v.self.id
    ensures DeleteFirst(v, list, n).order == Staying(v.order, FirstOf(list, n))
  {
    if n == 0 {
      assert FirstOf(list, 0) == {};
      NobodyGoes(v.order, {});
    } else {
      var before, key := n - 1, list[n - 1];
      DeletedOrder(v, list, before);
      DeleteFirstKeepsInv(v, list, before);
      var w := DeleteFirst(v, list, before);
      assert AgreeOn(w, key);
      WithoutIs(w.order, key);
      FirstOfGrows(list, before);
      StayTwice(v.order, FirstOf(list, before), {key}, FirstOf(list, n));
      if key !in w.nodes {
        NobodyGoes(w.order, {key});
      }
    }
  }

  lemma RemovedOrder(v: Peer, near: set<Id>, now: Time, grace: Time)
    requires Inv(v)
    ensures RemoveNonOverlapped(v, near, now, grace).order == Staying(v.order, Drops(v, near, now))
  {
    var gone, t := Drops(v, near, now), Timed(v, near, now, grace);
    var list := Ascending(gone);
    KeptIs(v, near, now, grace);
    TimedKeepsInv(v, near, now, grace);
    DropApart(t, gone, list, |list|);
    assert forall i :: 0 <= i < |list| ==> list[i] in list;
    DeletedOrder(t, list, |list|);
    assert FirstOf(list, |list|) == gone by {
      assert forall id :: id in FirstOf(list, |list|) <==> id in list;
    }
  }

  lemma {:induction false} SameStay(order: seq<Id>, a: set<Id>, b: set<Id>)
    requires forall id :: id in order ==> (id in a <==> id in b)
    ensures Staying(order, a) == Staying(order, b)
  {
    if order != [] {
      SameStay(order[1..], a, b);
    }
  }

  // Those a step takes out of the neighbour list, and the one it puts behind it.
  function Gone(v: Peer, step: Step): set<Id> {
    set id | id in v.order && Takes(v, step, id)
  }

  function Come(v: Peer, step: Step): seq<Id> {
    match step
    case DoQuery(joiner) => if joiner.id in v.nodes then [] else [joiner.id]
    case DoHello(from, _, _, _) => if from in v.nodes then [] else [from]
    case DoHelloReply(from, _) => if from in v.potential && from !in v.nodes then [from] else []
    case _ => []
  }

  lemma ByeOrder(v: Peer, step: Step)
    requires Inv(v) && step.DoBye?
    ensures Bye(v, step.from).order == Staying(v.order, Gone(v, step))
  {
    assert AgreeOn(v, step.from);
    WithoutIs(v.order, step.from);
    SameStay(v.order, {step.from}, Gone(v, step));
    if step.from !in v.order {
      NobodyGoes(v.order, Gone(v, step));
    }
  }

  lemma MoveSelfOrder(v: Peer, step: Step)
    requires Inv(v) && Polite(v, step) && step.DoMoveSelf?
    ensures MoveSelf(v, step.node, step.failed).order == Staying(v.order, Gone(v, step))
  {
    var u := Update(v.(self := step.node), step.node);
    SelfKeepsInv(v, step.node);
    UpdateKeepsInv(v.(self := step.node), step.node);
    assert forall i :: 0 <= i < |step.failed| ==> step.failed[i] in step.failed;
    DeletedOrder(u, step.failed, |step.failed|);
    SameStay(v.order, FirstOf(step.failed, |step.failed|), Gone(v, step));
  }

  lemma DropsAreGone(v: Peer, step: Step)
    requires Inv(v) && step.DoRemove?
    ensures Staying(v.order, Drops(v, step.near, step.now)) == Staying(v.order, Gone(v, step))
  {
    var drops := Drops(v, step.near, step.now);
    forall id | id in v.order
      ensures id in drops <==> id in Gone(v, step)
    {
      assert AgreeOn(v, id);
    }
    SameStay(v.order, drops, Gone(v, step));
  }

  lemma RemoveOrder(v: Peer, step: Step)
    requires Inv(v) && step.DoRemove?
    ensures RemoveNonOverlapped(v, step.near, step.now, step.grace).order == Staying(v.order, Gone(v, step))
  {
    RemovedOrder(v, step.near, step.now, step.grace);
    DropsAreGone(v, step);
  }

  lemma ContactOrder(v: Peer, step: Step)
    requires Inv(v) && step.DoContact?
    ensures ContactNew(v, step.relevant).order == Staying(v.order, Gone(v, step))
  {
    ContactIs(v, step.relevant, 0);
    NobodyGoes(v.order, Gone(v, step));
  }

  lemma GrowingOrder(v: Peer, step: Step)
    requires Inv(v) && Polite(v, step) && (step.DoQuery? || step.DoHello? || step.DoHelloReply?)
    ensures Next(v, step).order == v.order + Come(v, step)
  {
    if step.DoHello? {
      HelloIsTaken(v, step.from, step.node, step.list, step.lookedUp);
    }
  }

  lemma SameOrder(v: Peer, step: Step)
    requires Inv(v) && (step.DoEnclosing? || step.DoMove? || step.DoNotified? || step.DoDiscover?)
    ensures Next(v, step).order == v.order
  {
  }

  /** The neighbour list keeps its members in the order of their arrival. */
  lemma OrderOfArrival(v: Peer, step: Step)
    requires Inv(v) && Polite(v, step)
    ensures Next(v, step).order == Staying(v.order, Gone(v, step)) + Come(v, step)
  {
    if step.DoBye? {
      ByeOrder(v, step);
    } else if step.DoMoveSelf? {
      MoveSelfOrder(v, step);
    } else if step.DoRemove? {
      RemoveOrder(v, step);
    } else if step.DoContact? {
      ContactOrder(v, step);
    } else if step.DoQuery? || step.DoHello? || step.DoHelloReply? {
      GrowingOrder(v, step);
      NobodyGoes(v.order, Gone(v, step));
    } else {
      SameOrder(v, step);
      NobodyGoes(v.order, Gone(v, step));
    }
  }

  // ---------------------------------------------------------------- who is dropped

  predicate FoundNear(v: Peer, step: Step, id: Id) {
    step.DoRemove? && id in v.nodes && (id == v.self.id || id in step.near)
  }

  // Clean-up k is the last at which this neighbour was found relevant.
  ghost predicate LastNear(vs: seq<Peer>, steps: seq<Step>, id: Id, k: nat, n: nat)
    requires |vs| == |steps| + 1 && n <= |steps|
  {
    && k < n && FoundNear(vs[k], steps[k], id)
    && (forall i :: k < i < n ==> !FoundNear(vs[i], steps[i], id))
    && forall i :: k < i <= n ==> id in vs[i].nodes
  }

  // Its drop time is that clean-up's, or none.
  ghost predicate DropsBy(vs: seq<Peer>, steps: seq<Step>, id: Id, n: nat)
    requires |vs| == |steps| + 1 && n <= |steps|
  {
    id in vs[n].nodes ==>
      && id in vs[n].drop
      && (forall k: nat :: LastNear(vs, steps, id, k, n) ==> vs[n].drop[id] == steps[k].now + steps[k].grace)
      && ((forall k: nat :: !LastNear(vs, steps, id, k, n)) ==> vs[n].drop[id] == 0)
  }

  lemma LastNearNext(vs: seq<Peer>, steps: seq<Step>, id: Id, k: nat, n: nat, next: nat)
    requires |vs| == |steps| + 1 && n < |steps| && next == n + 1 && k < n && id in vs[next].nodes
    ensures LastNear(vs, steps, id, k, next) <==>
            LastNear(vs, steps, id, k, n) && !FoundNear(vs[n], steps[n], id)
  {
  }

  lemma DropsByNext(vs: seq<Peer>, steps: seq<Step>, id: Id, n: nat, next: nat)
    requires |vs| == |steps| + 1 && n < |steps| && next == n + 1 && DropsBy(vs, steps, id, n)
    requires Inv(vs[n]) && As(vs[n], steps[n], vs[next], id)
    ensures DropsBy(vs, steps, id, next)
  {
    if id in vs[next].nodes {
      assert AgreeOn(vs[n], id);
      forall k: nat | LastNear(vs, steps, id, k, next)
        ensures vs[next].drop[id] == steps[k].now + steps[k].grace
      {
        if k < n {
          LastNearNext(vs, steps, id, k, n, next);
        }
      }
      if vs[next].drop[id] != 0 {
        if FoundNear(vs[n], steps[n], id) {
          assert LastNear(vs, steps, id, n, next);
        } else {
          var k: nat :| LastNear(vs, steps, id, k, n);
          LastNearNext(vs, steps, id, k, n, next);
        }
      }
    }
  }

  lemma {:induction false} AlwaysDropsBy(vs: seq<Peer>, steps: seq<Step>, self: Node, id: Id, n: nat)
    requires Runs(vs, steps, self) && n <= |steps|
    ensures DropsBy(vs, steps, id, n)
  {
    if n > 0 {
      AlwaysDropsBy(vs, steps, self, id, n - 1);
      RunKeepsInv(vs, steps, self, n - 1);
      StepLeaves(vs[n - 1], steps[n - 1], id);
      DropsByNext(vs, steps, id, n - 1, n);
    }
  }

  /** Over every run, a clean-up drops a neighbour exactly when it is not the peer
      itself, is not relevant, and its grace since the last clean-up that found it
      relevant is over; one never found relevant goes at once. */
  lemma DroppedIff(vs: seq<Peer>, steps: seq<Step>, self: Node, id: Id, n: nat)
    requires Runs(vs, steps, self) && n < |steps| && steps[n].DoRemove? && id in vs[n].nodes
    ensures id !in vs[n + 1].nodes <==>
            && id != vs[n].self.id && id !in steps[n].near
            && forall k: nat :: LastNear(vs, steps, id, k, n) ==> steps[k].now + steps[k].grace <= steps[n].now
  {
    AlwaysDropsBy(vs, steps, self, id, n);
    RunKeepsInv(vs, steps, self, n);
    StepLeaves(vs[n], steps[n], id);
  }
}
