/** What a relay client does to its table of known relays, the distance index
    over it, and its own join state (VAST/VASTRelay.cpp). */
module Relay {
  import opened Options

  type Id = nat

  const UNASSIGNED: Id := 0
  const EQUAL_DISTANCE: real := 0.000001

  datatype Pos = Pos(x: real, y: real, z: real)

  // The distance between two positions; only its values matter here.
  type Metric = (Pos, Pos) -> real

  datatype Node = Node(id: Id, center: Pos, time: nat)

  // An entry of the distance index, keyed by the distance when it was inserted.
  datatype Entry = Entry(dist: real, id: Id)

  datatype Current = Nobody | Myself | Known(id: Id)

  datatype JoinState = Absent | Querying | Joining | Joined

  datatype Relays = Relays(
    self: Node,
    table: map<Id, Node>,
    index: seq<Entry>,
    curr: Current,
    contact: Option<Id>,
    state: JoinState)

  predicate IsCurrent(r: Relays, id: Id) {
    match r.curr
    case Nobody => false
    case Myself => id == r.self.id
    case Known(c) => id == c
  }

  // A multimap puts an entry behind those with the same key.
  function Place(index: seq<Entry>, e: Entry): seq<Entry> {
    if index == [] || e.dist < index[0].dist then [e] + index
    else [index[0]] + Place(index[1..], e)
  }

  // The first entry of a relay is erased.
  function Drop(index: seq<Entry>, id: Id): seq<Entry> {
    if index == [] then []
    else if index[0].id == id then index[1..]
    else [index[0]] + Drop(index[1..], id)
  }

  // Where a relay stands in the index; its length when it is not there.
  function IndexOf(index: seq<Entry>, id: Id): (i: nat)
    ensures i <= |index|
    ensures i < |index| ==> index[i].id == id
    ensures forall j :: 0 <= j < i ==> index[j].id != id
  {
    if index == [] || index[0].id == id then 0 else 1 + IndexOf(index[1..], id)
  }

  function Add(r: Relays, metric: Metric, node: Node, now: nat): Relays {
    if node.id == UNASSIGNED then r
    else
      var cleared := if node.id in r.table then Drop(r.index, node.id) else r.index;
      r.(table := r.table[node.id := node.(time := now)],
         index := Place(cleared, Entry(metric(node.center, r.self.center), node.id)))
  }

  function Remove(r: Relays, id: Id): Relays {
    if id !in r.table then r
    else
      var r1 := if IsCurrent(r, id) then r.(curr := Nobody, contact := None, state := Querying) else r;
      var r2 := if r1.contact == Some(id) then r1.(contact := None) else r1;
      if IndexOf(r.index, id) < |r.index| then
        r2.(index := Drop(r.index, id), table := r.table - {id})
      else r2
  }

  function RemoveFirst(r: Relays, ids: seq<Id>, n: nat): Relays
    requires n <= |ids|
  {
    if n == 0 then r else Remove(RemoveFirst(r, ids, n - 1), ids[n - 1])
  }

  // A relay whose message could not be sent is forgotten.
  function RemoveAll(r: Relays, ids: seq<Id>): Relays {
    RemoveFirst(r, ids, |ids|)
  }

  function Join(r: Relays, id: Id): (Relays, bool) {
    if id == UNASSIGNED then (r.(curr := Myself, contact := None, state := Joined), true)
    else if id !in r.table then (r, false)
    else (r.(curr := Known(id), contact := None, state := Joined), true)
  }

  // The relay after the last contacted one in distance order, going round.
  function NextContact(r: Relays): Option<Id> {
    if r.index == [] then None
    else if r.contact.None? then Some(r.index[0].id)
    else
      var i := IndexOf(r.index, r.contact.value);
      Some(if i + 1 < |r.index| then r.index[i + 1].id else r.index[0].id)
  }

  function ContactNext(r: Relays): Relays {
    r.(contact := NextContact(r))
  }

  /** How far from the front a walk from the back of the index stops, once it
      has taken n relays other than `keep`; None when it runs off the front. */
  function StopAt(index: seq<Entry>, k: nat, n: nat, keep: Id): (p: Option<nat>)
    requires k <= |index|
    ensures p.Some? ==> p.value <= k
  {
    if n == 0 then Some(k)
    else if k == 0 then None
    else if index[k - 1].id == keep then StopAt(index, k - 1, n, keep)
    else StopAt(index, k - 1, n - 1, keep)
  }

  // The relays other than `keep` from the back of the index down to position p.
  function TakenFrom(index: seq<Entry>, k: nat, p: nat, keep: Id): seq<Id>
    requires p <= k <= |index|
    decreases k
  {
    if k == p then []
    else if index[k - 1].id == keep then TakenFrom(index, k - 1, p, keep)
    else [index[k - 1].id] + TakenFrom(index, k - 1, p, keep)
  }

  function CurrentId(r: Relays): Id
    requires !r.curr.Nobody?
  {
    if r.curr.Myself? then r.self.id else r.curr.id
  }

  function Surplus(r: Relays, limit: nat): Option<seq<Id>>
    requires !r.curr.Nobody? && |r.index| > limit
  {
    var p := StopAt(r.index, |r.index|, |r.index| - limit, CurrentId(r));
    if p.None? then None else Some(TakenFrom(r.index, |r.index|, p.value, CurrentId(r)))
  }

  // None when the clean-up would walk off the index.
  function Cleanup(r: Relays, limit: nat): Option<Relays> {
    if limit == 0 || r.curr.Nobody? || r.state != Joined || |r.index| <= limit then Some(r)
    else
      var list := Surplus(r, limit);
      if list.None? then None else Some(RemoveAll(r, list.value))
  }

  // ---------------------------------------------------------------- messages and ticks

  function AddFirst(r: Relays, metric: Metric, nodes: seq<Node>, n: nat, now: nat): Relays
    requires n <= |nodes|
  {
    if n == 0 then r else Add(AddFirst(r, metric, nodes, n - 1, now), metric, nodes[n - 1], now)
  }

  function AddAll(r: Relays, metric: Metric, nodes: seq<Node>, now: nat): Relays {
    AddFirst(r, metric, nodes, |nodes|, now)
  }

  // A message to the next contact, if there is one; `fails` when it cannot be sent.
  function SendToNext(r: Relays, fails: bool): Relays {
    var r1 := ContactNext(r);
    if r1.contact.Some? && fails then Remove(r1, r1.contact.value) else r1
  }

  function JoinNext(r: Relays, fails: bool): Relays {
    if r.table == map[] then r else SendToNext(r, fails)
  }

  // The answer to this node's own RELAY_QUERY.
  function QueryReply(r: Relays, metric: Metric, relay: Node, asRelay: bool, fails: bool, now: nat): Relays {
    var r1 := Add(r, metric, relay, now);
    var r2 := if asRelay then Add(r1, metric, r1.self, now) else r1;
    JoinNext(r2, fails)
  }

  // RELAY_JOIN_R
  function JoinReply(r: Relays, from: Id, asRelay: bool, accepted: bool, failed: seq<Id>, fails: bool): Relays {
    if r.state == Joined then r
    else if !asRelay && !accepted then JoinNext(r, fails)
    else if asRelay then Join(RemoveAll(r, failed), UNASSIGNED).0
    else Join(r, from).0
  }

  // A PONG records where a known relay is; the index keeps its old distance.
  function Moved(r: Relays, from: Id, center: Pos): Relays {
    if from in r.table then r.(table := r.table[from := r.table[from].(center := center)]) else r
  }

  // The node's own coordinate is set; the index keeps its old distances.
  function Located(r: Relays, center: Pos): Relays {
    r.(self := r.self.(center := center))
  }

  // What the network and the timers bring to one tick.
  datatype Tick = Tick(
    pingDue: bool, entries: seq<Node>, pingFailed: seq<Id>,
    located: bool, queryDue: bool, joinDue: bool, fails: bool, now: nat)

  function Ping(r: Relays, metric: Metric, t: Tick): Relays {
    if !t.pingDue then r
    else RemoveAll(if r.table == map[] then AddAll(r, metric, t.entries, t.now) else r, t.pingFailed)
  }

  function Advance(r: Relays, t: Tick): Relays {
    match r.state
    case Absent =>
      if r.table == map[] then Join(r, UNASSIGNED).0
      else if t.located then r.(state := Querying)
      else r
    case Querying =>
      if !r.curr.Nobody? then r.(state := Joining)
      else if t.queryDue then SendToNext(r, t.fails)
      else r
    case Joining => if t.joinDue then JoinNext(r, t.fails) else r
    case Joined => r
  }

  function PostHandling(r: Relays, metric: Metric, t: Tick, limit: nat): Option<Relays> {
    Cleanup(Advance(Ping(r, metric, t), t), limit)
  }
}
