/** What holds of a relay client's tables and join state over every run. */
module RelayRuns {
  import opened Options
  import opened Sequences
  import opened Relay

  // ---------------------------------------------------------------- the index

  function CountOf(index: seq<Entry>, id: Id): nat {
    if index == [] then 0 else (if index[0].id == id then 1 else 0) + CountOf(index[1..], id)
  }

  ghost predicate Sorted(index: seq<Entry>) {
    forall i, j :: 0 <= i < j < |index| ==> index[i].dist <= index[j].dist
  }

  // Every relay is listed exactly once, and nothing else is.
  ghost predicate Lists(index: seq<Entry>, ids: set<Id>) {
    forall id :: CountOf(index, id) == if id in ids then 1 else 0
  }

  lemma {:induction false} PlaceCounts(index: seq<Entry>, e: Entry, id: Id)
    ensures CountOf(Place(index, e), id) == CountOf(index, id) + if e.id == id then 1 else 0
  {
    if index == [] || e.dist < index[0].dist {
      assert ([e] + index)[1..] == index;
    } else {
      PlaceCounts(index[1..], e, id);
      assert ([index[0]] + Place(index[1..], e))[1..] == Place(index[1..], e);
    }
  }

  lemma {:induction false} DropCounts(index: seq<Entry>, gone: Id, id: Id)
    ensures CountOf(Drop(index, gone), id) ==
            if id == gone && CountOf(index, id) > 0 then CountOf(index, id) - 1 else CountOf(index, id)
  {
    if index != [] && index[0].id != gone {
      DropCounts(index[1..], gone, id);
      assert ([index[0]] + Drop(index[1..], gone))[1..] == Drop(index[1..], gone);
    }
  }

  lemma {:induction false} PlaceMembers(index: seq<Entry>, e: Entry)
    ensures forall x :: x in Place(index, e) <==> x == e || x in index
  {
    if index != [] && index[0].dist <= e.dist {
      PlaceMembers(index[1..], e);
      assert index == [index[0]] + index[1..];
    }
  }

  lemma {:induction false} PlaceSorts(index: seq<Entry>, e: Entry)
    requires Sorted(index)
    ensures Sorted(Place(index, e))
  {
    if index != [] && index[0].dist <= e.dist {
      PlaceSorts(index[1..], e);
      PlaceMembers(index[1..], e);
      var rest := Place(index[1..], e);
      forall j | 0 <= j < |rest|
        ensures index[0].dist <= rest[j].dist
      {
        assert rest[j] in rest;
      }
    }
  }

  lemma {:induction false} DropMembers(index: seq<Entry>, gone: Id)
    ensures forall x :: x in Drop(index, gone) ==> x in index
    ensures forall x :: x in index && x.id != gone ==> x in Drop(index, gone)
  {
    if index != [] && index[0].id != gone {
      DropMembers(index[1..], gone);
    }
  }

  lemma {:induction false} DropSorts(index: seq<Entry>, gone: Id)
    requires Sorted(index)
    ensures Sorted(Drop(index, gone))
  {
    if index != [] && index[0].id != gone {
      DropSorts(index[1..], gone);
      DropMembers(index[1..], gone);
      var rest := Drop(index[1..], gone);
      forall j | 0 <= j < |rest|
        ensures index[0].dist <= rest[j].dist
      {
        assert rest[j] in index[1..];
      }
    }
  }

  lemma {:induction false} CountIsMembership(index: seq<Entry>, id: Id)
    ensures CountOf(index, id) > 0 <==> IndexOf(index, id) < |index|
  {
    if index != [] && index[0].id != id {
      CountIsMembership(index[1..], id);
    }
  }

  lemma {:induction false} CountAt(index: seq<Entry>, i: nat)
    requires i < |index|
    ensures CountOf(index, index[i].id) > 0
  {
    if i > 0 {
      CountAt(index[1..], i - 1);
    }
  }

  // A list with every relay once is as long as the table.
  lemma {:induction false} ListSize(index: seq<Entry>, ids: set<Id>)
    requires Lists(index, ids)
    ensures |index| == |ids|
  {
    if index == [] {
      assert forall id :: id in ids ==> CountOf(index, id) == 1;
      assert ids == {};
    } else {
      var first := index[0].id;
      CountAt(index, 0);
      assert first in ids;
      forall id
        ensures CountOf(index[1..], id) == if id in ids - {first} then 1 else 0
      {
        assert CountOf(index, id) == if id in ids then 1 else 0;
      }
      ListSize(index[1..], ids - {first});
    }
  }

  lemma {:induction false} ListedOnce(index: seq<Entry>, ids: set<Id>, i: nat, j: nat)
    requires Lists(index, ids) && i < j < |index|
    ensures index[i].id != index[j].id
  {
    if i == 0 {
      CountAt(index[1..], j - 1);
      assert CountOf(index, index[0].id) <= 1;
    } else {
      var first := index[0].id;
      CountAt(index, 0);
      forall id
        ensures CountOf(index[1..], id) == if id in ids - {first} then 1 else 0
      {
        assert CountOf(index, id) == if id in ids then 1 else 0;
      }
      ListedOnce(index[1..], ids - {first}, i - 1, j - 1);
    }
  }

  // ---------------------------------------------------------------- the invariant

  ghost predicate Tables(r: Relays) {
    && Sorted(r.index) && Lists(r.index, r.table.Keys)
    && (r.contact.Some? ==> r.contact.value in r.table)
  }

  ghost predicate Inv(r: Relays) {
    && Tables(r)
    && (r.curr.Known? ==> r.curr.id in r.table)
    && (r.state == Joined <==> !r.curr.Nobody?)
    && r.state != Joining
  }

  lemma AddKeepsInv(r: Relays, metric: Metric, node: Node, now: nat)
    requires Inv(r)
    ensures Inv(Add(r, metric, node, now))
  {
    if node.id != UNASSIGNED {
      var cleared := if node.id in r.table then Drop(r.index, node.id) else r.index;
      var e := Entry(metric(node.center, r.self.center), node.id);
      DropSorts(r.index, node.id);
      PlaceSorts(cleared, e);
      var n := Add(r, metric, node, now);
      forall id
        ensures CountOf(n.index, id) == if id in n.table.Keys then 1 else 0
      {
        DropCounts(r.index, node.id, id);
        PlaceCounts(cleared, e, id);
      }
    }
  }

  // Removing a relay takes it out of both tables, and out of nothing else.
  lemma {:induction false} RemoveIs(r: Relays, id: Id)
    requires Inv(r)
    ensures Inv(Remove(r, id))
    ensures Remove(r, id).table == r.table - {id}
    ensures Remove(r, id).self == r.self
    ensures !(IsCurrent(r, id) && id in r.table) ==>
              Remove(r, id).curr == r.curr && Remove(r, id).state == r.state
    ensures Remove(r, id).index == if id in r.table then Drop(r.index, id) else r.index
  {
    if id in r.table {
      CountIsMembership(r.index, id);
      assert CountOf(r.index, id) == 1;
      DropSorts(r.index, id);
      var n := Remove(r, id);
      forall k
        ensures CountOf(n.index, k) == if k in n.table.Keys then 1 else 0
      {
        DropCounts(r.index, id, k);
        assert CountOf(r.index, k) == if k in r.table.Keys then 1 else 0;
      }
    } else {
      assert r.table - {id} == r.table;
    }
  }

  lemma {:induction false} RemoveFirstKeepsInv(r: Relays, ids: seq<Id>, n: nat)
    requires Inv(r) && n <= |ids|
    ensures Inv(RemoveFirst(r, ids, n))
  {
    if n > 0 {
      RemoveFirstKeepsInv(r, ids, n - 1);
      RemoveIs(RemoveFirst(r, ids, n - 1), ids[n - 1]);
    }
  }

  lemma ContactIsKnown(r: Relays)
    requires Tables(r)
    ensures Tables(ContactNext(r))
    ensures NextContact(r).None? <==> r.table == map[]
  {
    ListSize(r.index, r.table.Keys);
    if r.index != [] {
      CountAt(r.index, 0);
      if r.contact.Some? {
        var i := IndexOf(r.index, r.contact.value);
        if i + 1 < |r.index| {
          CountAt(r.index, i + 1);
        }
      }
    }
  }

  // ---------------------------------------------------------------- clean-up

  function Keeps(index: seq<Entry>, k: nat, keep: Id): nat
    requires k <= |index|
  {
    if k == 0 then 0 else Keeps(index, k - 1, keep) + if index[k - 1].id == keep then 1 else 0
  }

  lemma {:induction false} KeepsNone(index: seq<Entry>, k: nat, keep: Id)
    requires k <= |index| && forall i :: 0 <= i < k ==> index[i].id != keep
    ensures Keeps(index, k, keep) == 0
  {
    if k > 0 {
      KeepsNone(index, k - 1, keep);
    }
  }

  lemma {:induction false} KeepsAtMostOne(index: seq<Entry>, ids: set<Id>, k: nat, keep: Id)
    requires Lists(index, ids) && k <= |index|
    ensures Keeps(index, k, keep) <= 1
  {
    if k > 0 {
      KeepsAtMostOne(index, ids, k - 1, keep);
      if index[k - 1].id == keep {
        forall i | 0 <= i < k - 1
          ensures index[i].id != keep
        {
          ListedOnce(index, ids, i, k - 1);
        }
        KeepsNone(index, k - 1, keep);
      }
    }
  }

  // The backward walk stays inside the index and takes exactly n relays.
  lemma {:induction false} WalkStaysInside(index: seq<Entry>, k: nat, n: nat, keep: Id)
    requires k <= |index| && n + Keeps(index, k, keep) <= k
    ensures var p := StopAt(index, k, n, keep);
            p.Some? && |TakenFrom(index, k, p.value, keep)| == n
  {
    if n > 0 {
      if index[k - 1].id == keep {
        WalkStaysInside(index, k - 1, n, keep);
      } else {
        WalkStaysInside(index, k - 1, n - 1, keep);
      }
    }
  }

  lemma {:induction false} TakenAre(index: seq<Entry>, k: nat, p: nat, keep: Id)
    requires p <= k <= |index|
    ensures forall i :: p <= i < k && index[i].id != keep ==> index[i].id in TakenFrom(index, k, p, keep)
    ensures forall id :: id in TakenFrom(index, k, p, keep) ==>
              id != keep && exists i :: p <= i < k && index[i].id == id
    decreases k
  {
    if k > p {
      TakenAre(index, k - 1, p, keep);
    }
  }

  lemma {:induction false} TakenOnce(index: seq<Entry>, ids: set<Id>, k: nat, p: nat, keep: Id)
    requires Lists(index, ids) && p <= k <= |index|
    ensures NoRepeats(TakenFrom(index, k, p, keep))
    decreases k
  {
    if k > p {
      TakenOnce(index, ids, k - 1, p, keep);
      if index[k - 1].id != keep {
        TakenAre(index, k - 1, p, keep);
        var rest := TakenFrom(index, k - 1, p, keep);
        forall j | 0 <= j < |rest|
          ensures rest[j] != index[k - 1].id
        {
          assert rest[j] in rest;
          var i :| p <= i < k - 1 && index[i].id == rest[j];
          ListedOnce(index, ids, i, k - 1);
        }
      }
    }
  }

  // m is r without these relays.
  ghost predicate Without(r: Relays, m: Relays, gone: set<Id>) {
    && Inv(m) && m.curr == r.curr && m.state == r.state && m.self == r.self
    && m.table == r.table - gone
  }

  lemma RemoveOther(r: Relays, m: Relays, gone: set<Id>, id: Id, all: set<Id>)
    requires Without(r, m, gone) && !IsCurrent(r, id) && all == gone + {id}
    ensures Without(r, Remove(m, id), all)
  {
    RemoveIs(m, id);
    assert r.table - gone - {id} == r.table - all;
  }

  // Removing relays that are not the current one.
  lemma {:induction false} RemoveFirstIs(r: Relays, ids: seq<Id>, n: nat)
    requires Inv(r) && n <= |ids|
    requires forall i :: 0 <= i < |ids| ==> !IsCurrent(r, ids[i])
    ensures Without(r, RemoveFirst(r, ids, n), FirstOf(ids, n))
  {
    if n == 0 {
      assert r.table - {} == r.table;
    } else {
      var before := n - 1;
      RemoveFirstIs(r, ids, before);
      FirstOfGrows(ids, before);
      RemoveOther(r, RemoveFirst(r, ids, before), FirstOf(ids, before), ids[before], FirstOf(ids, n));
    }
  }

  // The surplus is well defined, and is the far end of the index.
  lemma SurplusIs(r: Relays, limit: nat) returns (p: nat)
    requires Inv(r) && r.state == Joined && 0 < limit < |r.index|
    ensures Surplus(r, limit).Some?
    ensures var list := Surplus(r, limit).value;
            && |list| == |r.index| - limit && NoRepeats(list)
            && p <= |r.index| && list == TakenFrom(r.index, |r.index|, p, CurrentId(r))
            && forall i :: 0 <= i < |list| ==> list[i] in r.table && !IsCurrent(r, list[i])
  {
    var n, keep := |r.index|, CurrentId(r);
    KeepsAtMostOne(r.index, r.table.Keys, n, keep);
    WalkStaysInside(r.index, n, n - limit, keep);
    p := StopAt(r.index, n, n - limit, keep).value;
    TakenOnce(r.index, r.table.Keys, n, p, keep);
    TakenAre(r.index, n, p, keep);
    var list := Surplus(r, limit).value;
    forall i | 0 <= i < |list|
      ensures list[i] in r.table && !IsCurrent(r, list[i])
    {
      assert list[i] in list;
      var j :| p <= j < n && r.index[j].id == list[i];
      CountAt(r.index, j);
    }
  }

  /** With a positive limit the clean-up never walks off the index; it leaves
      exactly `limit` relays, keeps the current one, and removes no relay that
      is nearer, by the index, than one it keeps (the current one aside). */
  lemma CleanupKeepsNearest(r: Relays, limit: nat)
    requires Inv(r) && r.state == Joined && 0 < limit < |r.table|
    ensures Cleanup(r, limit).Some?
    ensures var n := Cleanup(r, limit).value;
            && Inv(n) && n.curr == r.curr && n.state == Joined && n.self == r.self
            && |n.table| == limit
            && (forall id :: id in n.table ==> id in r.table && n.table[id] == r.table[id])
            && (forall id :: id in r.table && IsCurrent(r, id) ==> id in n.table)
            && (forall i, j :: 0 <= i < |r.index| && 0 <= j < |r.index|
                               && r.index[i].id in n.table && !IsCurrent(r, r.index[i].id)
                               && r.index[j].id !in n.table ==>
                               i < j && r.index[i].dist <= r.index[j].dist)
  {
    ListSize(r.index, r.table.Keys);
    var p := SurplusIs(r, limit);
    var list := Surplus(r, limit).value;
    TakenAre(r.index, |r.index|, p, CurrentId(r));
    RemoveFirstIs(r, list, |list|);
    var n := Cleanup(r, limit).value;
    var gone := FirstOf(list, |list|);
    assert forall id :: id in list <==> id in gone;
    FirstOfSize(list, |list|);
    assert gone <= r.table.Keys && n.table.Keys == r.table.Keys - gone;
    forall i | 0 <= i < |r.index|
      ensures r.index[i].id in n.table && !IsCurrent(r, r.index[i].id) ==> i < p
      ensures r.index[i].id !in n.table ==> i >= p
    {
      CountAt(r.index, i);
      if r.index[i].id !in n.table {
        assert r.index[i].id in list;
        var j :| p <= j < |r.index| && r.index[j].id == r.index[i].id;
        if i < j {
          ListedOnce(r.index, r.table.Keys, i, j);
        }
      }
    }
  }

  lemma CleanupKeepsInv(r: Relays, limit: nat)
    requires Inv(r)
    ensures Cleanup(r, limit).Some? && Inv(Cleanup(r, limit).value)
  {
    ListSize(r.index, r.table.Keys);
    if limit != 0 && r.state == Joined && |r.index| > limit {
      CleanupKeepsNearest(r, limit);
    }
  }

  // ---------------------------------------------------------------- runs

  datatype Step =
    | Learn(nodes: seq<Node>, now: nat)
    | Lose(id: Id)
    | Move(from: Id, center: Pos)
    | Locate(center: Pos)
    | Send(failed: seq<Id>)
    | Found(relay: Node, asRelay: bool, fails: bool, now: nat)
    | Answered(from: Id, asRelay: bool, accepted: bool, failed: seq<Id>, fails: bool)
    | Ticks(tick: Tick, limit: nat)

  function Apply(r: Relays, metric: Metric, step: Step): Option<Relays> {
    match step
    case Learn(nodes, now) => Some(AddAll(r, metric, nodes, now))
    case Lose(id) => Some(Remove(r, id))
    case Move(from, center) => Some(Moved(r, from, center))
    case Locate(center) => Some(Located(r, center))
    case Send(failed) => Some(RemoveAll(r, failed))
    case Found(relay, asRelay, fails, now) => Some(QueryReply(r, metric, relay, asRelay, fails, now))
    case Answered(from, asRelay, accepted, failed, fails) =>
      Some(JoinReply(r, from, asRelay, accepted, failed, fails))
    case Ticks(tick, limit) => PostHandling(r, metric, tick, limit)
  }

  function Start(self: Node): Relays {
    Relays(self, map[], [], Nobody, None, Absent)
  }

  lemma {:induction false} AddFirstKeepsInv(r: Relays, metric: Metric, nodes: seq<Node>, n: nat, now: nat)
    requires Inv(r) && n <= |nodes|
    ensures Inv(AddFirst(r, metric, nodes, n, now))
  {
    if n > 0 {
      AddFirstKeepsInv(r, metric, nodes, n - 1, now);
      AddKeepsInv(AddFirst(r, metric, nodes, n - 1, now), metric, nodes[n - 1], now);
    }
  }

  lemma SendToNextKeepsInv(r: Relays, fails: bool)
    requires Inv(r)
    ensures Inv(SendToNext(r, fails))
  {
    ContactIsKnown(r);
    var r1 := ContactNext(r);
    if r1.contact.Some? {
      RemoveIs(r1, r1.contact.value);
    }
  }

  lemma JoinKeepsInv(r: Relays, id: Id)
    requires Inv(r)
    ensures Inv(Join(r, id).0)
    ensures Join(r, id).1 <==> id == UNASSIGNED || id in r.table
    ensures var j := Join(r, id);
            j.1 ==> j.0.state == Joined && IsCurrent(j.0, if id == UNASSIGNED then r.self.id else id)
  {
  }

  lemma PingKeepsInv(r: Relays, metric: Metric, t: Tick)
    requires Inv(r)
    ensures Inv(Ping(r, metric, t))
  {
    AddFirstKeepsInv(r, metric, t.entries, |t.entries|, t.now);
    var r0 := if r.table == map[] then AddAll(r, metric, t.entries, t.now) else r;
    RemoveFirstKeepsInv(r0, t.pingFailed, |t.pingFailed|);
  }

  lemma AdvanceKeepsInv(r: Relays, t: Tick)
    requires Inv(r)
    ensures Inv(Advance(r, t))
  {
    SendToNextKeepsInv(r, t.fails);
    JoinKeepsInv(r, UNASSIGNED);
  }

  lemma StepKeepsInv(r: Relays, metric: Metric, step: Step)
    requires Inv(r)
    ensures Apply(r, metric, step).Some? && Inv(Apply(r, metric, step).value)
  {
    match step
    case Learn(nodes, now) => AddFirstKeepsInv(r, metric, nodes, |nodes|, now);
    case Lose(id) => RemoveIs(r, id);
    case Move(from, center) => assert Moved(r, from, center).table.Keys == r.table.Keys;
    case Locate(center) => assert Located(r, center).index == r.index && Located(r, center).table == r.table;
    case Send(failed) => RemoveFirstKeepsInv(r, failed, |failed|);
    case Found(relay, asRelay, fails, now) => {
      AddKeepsInv(r, metric, relay, now);
      var r1 := Add(r, metric, relay, now);
      AddKeepsInv(r1, metric, r1.self, now);
      SendToNextKeepsInv(r1, fails);
      SendToNextKeepsInv(Add(r1, metric, r1.self, now), fails);
    }
    case Answered(from, asRelay, accepted, failed, fails) => {
      SendToNextKeepsInv(r, fails);
      RemoveFirstKeepsInv(r, failed, |failed|);
      JoinKeepsInv(RemoveAll(r, failed), UNASSIGNED);
      JoinKeepsInv(r, from);
    }
    case Ticks(t, limit) => {
      PingKeepsInv(r, metric, t);
      AdvanceKeepsInv(Ping(r, metric, t), t);
      CleanupKeepsInv(Advance(Ping(r, metric, t), t), limit);
    }
  }

  ghost predicate Runs(rs: seq<Relays>, metric: Metric, steps: seq<Step>) {
    && |rs| == |steps| + 1 && rs[0] == Start(rs[0].self)
    && forall i :: 0 <= i < |steps| ==> Apply(rs[i], metric, steps[i]) == Some(rs[i + 1])
  }

  lemma {:induction false} RunKeepsInv(rs: seq<Relays>, metric: Metric, steps: seq<Step>, n: nat)
    requires Runs(rs, metric, steps) && n < |rs|
    ensures Inv(rs[n])
  {
    if n == 0 {
      assert rs[0].table.Keys == {};
    } else {
      RunKeepsInv(rs, metric, steps, n - 1);
      StepKeepsInv(rs[n - 1], metric, steps[n - 1]);
    }
  }

  /** In every reachable state the index holds each known relay exactly once and
      is in distance order, the contact is none or a known relay, and a node is
      joined exactly when it has a current relay, which is itself or a known
      one.  The state JOINING is never entered. */
  lemma TablesAgree(rs: seq<Relays>, metric: Metric, steps: seq<Step>, n: nat)
    requires Runs(rs, metric, steps) && n < |rs|
    ensures var r := rs[n];
            && |r.index| == |r.table|
            && (forall i :: 0 <= i < |r.index| ==> r.index[i].id in r.table)
            && (forall i, j :: 0 <= i < j < |r.index| ==>
                  r.index[i].id != r.index[j].id && r.index[i].dist <= r.index[j].dist)
            && (r.contact.Some? ==> r.contact.value in r.table)
            && (r.state == Joined <==> r.curr.Myself? || (r.curr.Known? && r.curr.id in r.table))
            && r.state != Joining
  {
    RunKeepsInv(rs, metric, steps, n);
    var r := rs[n];
    ListSize(r.index, r.table.Keys);
    forall i | 0 <= i < |r.index|
      ensures r.index[i].id in r.table
    {
      CountAt(r.index, i);
    }
    forall i, j | 0 <= i < j < |r.index|
      ensures r.index[i].id != r.index[j].id
    {
      ListedOnce(r.index, r.table.Keys, i, j);
    }
  }
}
