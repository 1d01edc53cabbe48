/** The neighbour tables of a peer of the Voronoi overlay (VAST/VONPeer.cpp):
    what every message and every tick does to them. */
module Von {
  import opened OrderedKeys

  type Id = nat
  type Time = nat

  datatype Pos = Pos(x: real, y: real, z: real)

  // What is known of a node; `about` stands for its area's shape and its address.
  datatype Node = Node(id: Id, time: Time, center: Pos, about: nat)

  datatype Status = Inserted | Deleted | Updated

  // What a neighbour is known to know of others.
  type Known = map<Id, int>

  /** The five tables that describe the neighbours: their records, their order of
      arrival, what each knows, when each is to be dropped, and the sites of the
      Voronoi diagram.  Beside them, nodes heard of and nodes sent a HELLO. */
  datatype Peer = Peer(
    self: Node,
    nodes: map<Id, Node>,
    order: seq<Id>,
    states: map<Id, Known>,
    drop: map<Id, Time>,
    sites: map<Id, Pos>,
    heard: map<Id, Node>,
    potential: map<Id, Node>,
    status: map<Id, Status>)

  function Fresh(self: Node): Peer {
    Peer(self, map[], [], map[], map[], map[], map[], map[], map[])
  }

  // A site that is already there is not moved.
  function AddSite(sites: map<Id, Pos>, id: Id, at: Pos): map<Id, Pos> {
    if id in sites then sites else sites[id := at]
  }

  function Insert(v: Peer, node: Node): Peer {
    var id := node.id;
    if id in v.nodes then v
    else v.(sites := AddSite(v.sites, id, node.center), nodes := v.nodes[id := node], order := v.order + [id],
            states := v.states[id := map[]], drop := v.drop[id := 0], status := v.status[id := Inserted])
  }

  // The list without the first place at which an id stands.
  function Without(order: seq<Id>, id: Id): seq<Id> {
    if order == [] then []
    else if order[0] == id then order[1..]
    else [order[0]] + Without(order[1..], id)
  }

  function Delete(v: Peer, id: Id): Peer {
    if id !in v.nodes then v
    else v.(sites := v.sites - {id}, order := Without(v.order, id), nodes := v.nodes - {id},
            states := v.states - {id}, drop := v.drop - {id}, status := v.status[id := Deleted])
  }

  // Only an earlier report is refused.
  predicate Refused(v: Peer, node: Node) {
    node.id !in v.nodes || node.time < v.nodes[node.id].time
  }

  function Update(v: Peer, node: Node): Peer {
    var id := node.id;
    if Refused(v, node) then v
    else v.(sites := if id in v.sites then v.sites[id := node.center] else v.sites,
            nodes := v.nodes[id := node],
            status := if id in v.status && v.status[id] == Inserted then v.status else v.status[id := Updated])
  }

  function JoinAt(v: Peer, self: Node): Peer {
    Insert(v.(self := self), self)
  }

  // leave () keeps the diagram and the drop times.
  function Leave(v: Peer): Peer {
    v.(nodes := map[], order := [], states := map[])
  }

  // VON_EN: the sender's list replaces what it is known to know.  A sender that
  // is looked up (`lookedUp`) and unknown gets a blank record.
  function Enclosing(v: Peer, from: Id, list: Known, lookedUp: bool): Peer {
    var v1 := v.(states := v.states[from := list]);
    if lookedUp && from !in v.nodes then v1.(nodes := v.nodes[from := Node(0, 0, Pos(0.0, 0.0, 0.0), 0)]) else v1
  }

  // VON_HELLO goes on to do what VON_EN does.
  function Hello(v: Peer, from: Id, node: Node, list: Known, lookedUp: bool): Peer {
    Enclosing(if from in v.nodes then Update(v, node) else Insert(v, node), from, list, lookedUp)
  }

  function HelloReply(v: Peer, from: Id, center: Pos): Peer {
    if from in v.potential then
      var v1 := Insert(v, v.potential[from].(center := center));
      v1.(potential := v1.potential - {from})
    else v
  }

  function Move(v: Peer, from: Id, node: Node): Peer {
    if from in v.nodes then Update(v, node) else v
  }

  // The later of two records; of equally late ones, the one that comes second.
  function Later(a: Node, b: Node): Node {
    if b.time < a.time then a else b
  }

  function Hear(heard: map<Id, Node>, node: Node): map<Id, Node> {
    heard[node.id := if node.id in heard then Later(heard[node.id], node) else node]
  }

  function HearFirst(heard: map<Id, Node>, list: seq<Node>, n: nat): map<Id, Node>
    requires n <= |list|
  {
    if n == 0 then heard else Hear(HearFirst(heard, list, n - 1), list[n - 1])
  }

  // VON_NODE
  function Notified(v: Peer, list: seq<Node>): Peer {
    v.(heard := HearFirst(v.heard, list, |list|))
  }

  function Bye(v: Peer, from: Id): Peer {
    if from in v.order then Delete(v, from) else v
  }

  function DeleteFirst(v: Peer, list: seq<Id>, n: nat): Peer
    requires n <= |list|
  {
    if n == 0 then v else Delete(DeleteFirst(v, list, n - 1), list[n - 1])
  }

  function DeleteAll(v: Peer, list: seq<Id>): Peer {
    DeleteFirst(v, list, |list|)
  }

  // This node's own move; `failed` are the neighbours it could not be told to.
  function MoveSelf(v: Peer, self: Node, failed: seq<Id>): Peer {
    DeleteAll(Update(v.(self := self), self), failed)
  }

  // ---------------------------------------------------------------- a tick

  // Whether a node is relevant to another, in a diagram.
  type Relevance = (map<Id, Pos>, Node, Node) -> bool

  // Records heard of, in id order: known nodes are brought up to date, others
  // join the diagram for a while.
  function SortOut(v: Peer, keys: seq<Id>, n: nat): Peer
    requires n <= |keys| && forall i :: 0 <= i < |keys| ==> keys[i] in v.heard
    ensures SortOut(v, keys, n).heard == v.heard && SortOut(v, keys, n).nodes.Keys == v.nodes.Keys
  {
    if n == 0 then v
    else
      var v1 := SortOut(v, keys, n - 1);
      var node := v1.heard[keys[n - 1]];
      if node.id in v1.nodes then Update(v1, node)
      else v1.(sites := AddSite(v1.sites, node.id, node.center))
  }

  // Unknown ones that are relevant become potential neighbours.
  function Greet(v: Peer, keys: seq<Id>, n: nat, relevant: Relevance): Peer
    requires n <= |keys| && forall i :: 0 <= i < |keys| ==> keys[i] in v.heard
    ensures Greet(v, keys, n, relevant).heard == v.heard
  {
    if n == 0 then v
    else
      var v1 := Greet(v, keys, n - 1, relevant);
      var node := v1.heard[keys[n - 1]];
      if relevant(v1.sites, node, v1.self) then v1.(potential := v1.potential[keys[n - 1] := node]) else v1
  }

  // The heard-of nodes that are not neighbours, in id order.
  function Unknown(v: Peer, keys: seq<Id>, n: nat): (list: seq<Id>)
    requires n <= |keys| && forall i :: 0 <= i < |keys| ==> keys[i] in v.heard
    ensures (forall i :: 0 <= i < |keys| ==> v.heard[keys[i]].id == keys[i]) ==>
              forall i :: 0 <= i < |list| ==> list[i] in v.heard && list[i] !in v.nodes
  {
    if n == 0 then []
    else
      var id := v.heard[keys[n - 1]].id;
      Unknown(v, keys, n - 1) + if id in v.nodes then [] else [id]
  }

  ghost predicate HeardFine(v: Peer) {
    forall id :: id in v.heard ==> v.heard[id].id == id
  }

  function Members(list: seq<Id>): set<Id> {
    set id | id in list
  }

  function ContactNew(v: Peer, relevant: Relevance): Peer
    requires HeardFine(v)
  {
    var keys := Ascending(v.heard.Keys);
    var v1 := SortOut(v, keys, |keys|);
    var list := Unknown(v, keys, |keys|);
    var v2 := Greet(v1, list, |list|, relevant);
    v2.(sites := v2.sites - Members(list), heard := map[])
  }

  // Who is dropped: irrelevant neighbours whose time has come.
  function Drops(v: Peer, relevant: set<Id>, now: Time): set<Id> {
    set id | id in v.nodes && id != v.self.id && id !in relevant && now >= (if id in v.drop then v.drop[id] else 0)
  }

  function DropTime(v: Peer, id: Id, relevant: set<Id>, now: Time, grace: Time): Time {
    if id in v.nodes && (id == v.self.id || id in relevant) then now + grace
    else if id in v.drop then v.drop[id]
    else 0
  }

  function RemoveNonOverlapped(v: Peer, relevant: set<Id>, now: Time, grace: Time): Peer {
    var gone := Drops(v, relevant, now);
    var kept := map id | id in v.drop.Keys + v.nodes.Keys && id !in gone :: DropTime(v, id, relevant, now, grace);
    DeleteAll(v.(drop := kept), Ascending(gone))
  }

  // What neighbours are known to know is worked out afresh.
  function Discovered(v: Peer, found: map<Id, Known>): Peer {
    v.(states := v.states + map id | id in found && id in v.nodes && id != v.self.id :: found[id])
  }

  // ---------------------------------------------------------------- the closest neighbour

  type Metric = (Pos, Pos) -> real

  // The first of the nearest of the neighbours after the peer itself, up to the nth.
  function ClosestUpTo(v: Peer, at: Pos, metric: Metric, n: nat): (c: Id)
    requires 2 <= n <= |v.order| && forall i :: 0 <= i < |v.order| ==> v.order[i] in v.nodes
    ensures c in v.nodes && exists i :: 1 <= i < n && v.order[i] == c
  {
    if n == 2 then
      assert v.order[1] in v.nodes;
      v.order[1]
    else
      var best := ClosestUpTo(v, at, metric, n - 1);
      var id := v.order[n - 1];
      assert id in v.nodes;
      if metric(at, v.nodes[id].center) < metric(at, v.nodes[best].center) then id else best
  }

  // 0 stands for nobody.
  function Closest(v: Peer, at: Pos, metric: Metric): Id
    requires forall i :: 0 <= i < |v.order| ==> v.order[i] in v.nodes
  {
    if |v.order| <= 1 then 0 else ClosestUpTo(v, at, metric, |v.order|)
  }

  // ---------------------------------------------------------------- records by time

  function OfId(list: seq<Node>, id: Id): seq<Node> {
    if list == [] then []
    else OfId(list[..|list| - 1], id) + if list[|list| - 1].id == id then [list[|list| - 1]] else []
  }

  function Latest(first: Node, list: seq<Node>): Node {
    if list == [] then first else Later(Latest(first, list[..|list| - 1]), list[|list| - 1])
  }

  function UpdateAll(v: Peer, list: seq<Node>): Peer {
    if list == [] then v else Update(UpdateAll(v, list[..|list| - 1]), list[|list| - 1])
  }
}
