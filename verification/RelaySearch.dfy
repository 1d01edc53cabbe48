/** Greedy search for the relay closest to a joining node
    (VAST/VASTRelay.cpp, closestRelay and RELAY_QUERY). */
module RelaySearch {
  import opened Options
  import opened Sequences
  import opened Relay
  import opened RelayRuns

  // How far each relay is from the joiner's position.
  type Distances = Id -> real

  datatype Best = Best(id: Id, dist: real)

  predicate Better(id: Id, dist: real, best: Best) {
    dist < best.dist || (dist - best.dist < EQUAL_DISTANCE && id < best.id)
  }

  function Scan(index: seq<Entry>, far: Distances, best: Best, n: nat): Best
    requires n <= |index|
  {
    if n == 0 then best
    else
      var b := Scan(index, far, best, n - 1);
      var id := index[n - 1].id;
      if Better(id, far(id), b) then Best(id, far(id)) else b
  }

  // Starting from itself, a relay keeps the better of what it has and the next.
  function Closest(r: Relays, far: Distances): Id {
    Scan(r.index, far, Best(r.self.id, far(r.self.id)), |r.index|).id
  }

  // A relay farther off than one with a higher id is farther by at least
  // EQUAL_DISTANCE.  (It is so when all different distances differ by that much.)
  ghost predicate Orderly(far: Distances) {
    forall a: Id, b: Id :: a < b && far(a) > far(b) ==> far(a) - far(b) >= EQUAL_DISTANCE
  }

  // Nearer, or as near with a lower id.
  predicate Nearer(far: Distances, a: Id, b: Id) {
    far(a) < far(b) || (far(a) == far(b) && a < b)
  }

  lemma {:induction false} ScanFindsNearest(index: seq<Entry>, far: Distances, self: Id, n: nat)
    requires n <= |index| && Orderly(far)
    ensures var b := Scan(index, far, Best(self, far(self)), n);
            && b.dist == far(b.id)
            && (b.id == self || exists i :: 0 <= i < n && index[i].id == b.id)
            && !Nearer(far, self, b.id)
            && forall i :: 0 <= i < n ==> !Nearer(far, index[i].id, b.id)
  {
    if n > 0 {
      ScanFindsNearest(index, far, self, n - 1);
      var b := Scan(index, far, Best(self, far(self)), n - 1);
      var id := index[n - 1].id;
      assert id < b.id && far(id) > far(b.id) ==> far(id) - far(b.id) >= EQUAL_DISTANCE;
      assert Better(id, far(id), b) <==> Nearer(far, id, b.id);
    }
  }

  lemma {:induction false} ScanStaysInside(index: seq<Entry>, far: Distances, best: Best, n: nat)
    requires n <= |index|
    ensures var b := Scan(index, far, best, n);
            b.id == best.id || exists i :: 0 <= i < n && index[i].id == b.id
  {
    if n > 0 {
      ScanStaysInside(index, far, best, n - 1);
    }
  }

  // Whatever the distances, a relay finds itself or one it knows.
  lemma ClosestIsKnown(r: Relays, far: Distances)
    requires Inv(r)
    ensures Closest(r, far) == r.self.id || Closest(r, far) in r.table
  {
    ScanStaysInside(r.index, far, Best(r.self.id, far(r.self.id)), |r.index|);
    var c := Closest(r, far);
    if c != r.self.id {
      var i :| 0 <= i < |r.index| && r.index[i].id == c;
      CountAt(r.index, i);
    }
  }

  /** With orderly distances a relay finds the one nearest to the joiner among
      itself and the relays it knows, ties going to the lower id. */
  lemma ClosestIsNearest(r: Relays, far: Distances)
    requires Inv(r) && Orderly(far)
    ensures var c := Closest(r, far);
            && (c == r.self.id || c in r.table)
            && !Nearer(far, r.self.id, c)
            && forall id :: id in r.table ==> !Nearer(far, id, c)
  {
    ScanFindsNearest(r.index, far, r.self.id, |r.index|);
    var c := Closest(r, far);
    if c != r.self.id {
      var i :| 0 <= i < |r.index| && r.index[i].id == c;
      CountAt(r.index, i);
    }
    forall id | id in r.table
      ensures !Nearer(far, id, c)
    {
      CountIsMembership(r.index, id);
      assert CountOf(r.index, id) == 1;
    }
  }

  /** Of itself and a single relay it knows, a node finds that relay exactly when
      it is nearer, or has the lower id and is farther by less than a millionth. */
  lemma ClosestOfTwo(r: Relays, far: Distances, e: Entry)
    requires r.index == [e] && e.id != r.self.id
    ensures Closest(r, far) == e.id <==>
            far(e.id) < far(r.self.id) || (e.id < r.self.id && far(e.id) - far(r.self.id) < 0.000001)
  {
    assert Scan(r.index, far, Best(r.self.id, far(r.self.id)), 0) == Best(r.self.id, far(r.self.id));
  }

  // ---------------------------------------------------------------- one query

  // What a relay does with a query: it answers, or forwards it to another.
  datatype Handled = Handled(relays: Relays, next: Option<Id>)

  // A relay that cannot be reached is removed, and the next closest is tried.
  function Route(r: Relays, far: Distances, reachable: set<Id>, tries: nat): (h: Option<Handled>)
    decreases tries
  {
    var c := Closest(r, far);
    if c == r.self.id then Some(Handled(r, None))
    else if c in reachable then Some(Handled(r, Some(c)))
    else if tries == 0 then None
    else Route(Remove(r, c), far, reachable, tries - 1)
  }

  lemma RemovedOne(r: Relays, id: Id)
    requires Inv(r) && id in r.table
    ensures var r1 := Remove(r, id);
            Inv(r1) && r1.self == r.self && r1.table.Keys == r.table.Keys - {id} && |r1.table| == |r.table| - 1
  {
    RemoveIs(r, id);
    assert Remove(r, id).table.Keys == r.table.Keys - {id};
  }

  // Relays were forgotten only if they could not be reached.
  ghost predicate OnlyLost(before: Relays, after: Relays, reachable: set<Id>) {
    && after.self == before.self
    && after.table.Keys <= before.table.Keys
    && before.table.Keys * reachable <= after.table.Keys
  }

  // One failed send.
  lemma RetryStep(r: Relays, far: Distances, reachable: set<Id>)
    requires Inv(r) && Closest(r, far) != r.self.id && Closest(r, far) !in reachable
    ensures var r1 := Remove(r, Closest(r, far));
            && Inv(r1) && OnlyLost(r, r1, reachable)
            && Closest(r, far) in r.table && r1.table.Keys == r.table.Keys - {Closest(r, far)}
            && |r1.table| == |r.table| - 1
  {
    ClosestIsKnown(r, far);
    RemovedOne(r, Closest(r, far));
  }

  /** No relay that can be reached is forgotten. */
  lemma {:induction false} RouteLosesOnlyLost(r: Relays, far: Distances, reachable: set<Id>, tries: nat, h: Handled)
    requires Inv(r) && Route(r, far, reachable, tries) == Some(h)
    ensures OnlyLost(r, h.relays, reachable)
    decreases tries
  {
    var c := Closest(r, far);
    if c != r.self.id && c !in reachable {
      RetryStep(r, far, reachable);
      RouteLosesOnlyLost(Remove(r, c), far, reachable, tries - 1, h);
    }
  }

  /** The retry loop ends after at most as many failed sends as there are known
      relays. */
  lemma {:induction false} RouteEnds(r: Relays, far: Distances, reachable: set<Id>, tries: nat)
    requires Inv(r) && |r.table| <= tries
    ensures Route(r, far, reachable, tries).Some?
    decreases tries
  {
    var c := Closest(r, far);
    if c != r.self.id && c !in reachable {
      RetryStep(r, far, reachable);
      RouteEnds(Remove(r, c), far, reachable, tries - 1);
    }
  }

  lemma {:induction false} RouteKeepsInv(r: Relays, far: Distances, reachable: set<Id>, tries: nat)
    requires Inv(r) && Route(r, far, reachable, tries).Some?
    ensures Inv(Route(r, far, reachable, tries).value.relays)
    decreases tries
  {
    var c := Closest(r, far);
    if c != r.self.id && c !in reachable {
      RetryStep(r, far, reachable);
      RouteKeepsInv(Remove(r, c), far, reachable, tries - 1);
    }
  }

  // Where the query ends up: at another relay, or here.
  function Target(self: Id, h: Handled): Id {
    if h.next.Some? then h.next.value else self
  }

  lemma {:induction false} TargetCanBeReached(r: Relays, far: Distances, reachable: set<Id>, tries: nat)
    requires Inv(r) && Route(r, far, reachable, tries).Some?
    ensures var h := Route(r, far, reachable, tries).value;
            h.next.Some? ==> h.next.value in h.relays.table && h.next.value in reachable && h.next.value != r.self.id
    decreases tries
  {
    var c := Closest(r, far);
    if c != r.self.id && c !in reachable {
      RetryStep(r, far, reachable);
      TargetCanBeReached(Remove(r, c), far, reachable, tries - 1);
    } else {
      ClosestIsKnown(r, far);
    }
  }

  // t is the nearest of `self` and what is left, and all that is gone was nearer.
  ghost predicate Nearest(before: set<Id>, after: set<Id>, self: Id, far: Distances, t: Id) {
    && !Nearer(far, self, t)
    && forall id :: id in before ==> (id in after <==> !Nearer(far, id, t))
  }

  lemma NoneNearer(r: Relays, far: Distances, t: Id)
    requires Inv(r) && Orderly(far) && (t == r.self.id || t in r.table)
    ensures !Nearer(far, t, Closest(r, far))
  {
    ClosestIsNearest(r, far);
  }

  lemma NothingLost(r: Relays, far: Distances)
    requires Inv(r) && Orderly(far)
    ensures Nearest(r.table.Keys, r.table.Keys, r.self.id, far, Closest(r, far))
  {
    ClosestIsNearest(r, far);
  }

  // If the choice is right after a failed send, it was right before.
  lemma RetryKeepsNearest(r: Relays, far: Distances, reachable: set<Id>, h: Handled)
    requires Inv(r) && Orderly(far)
    requires Closest(r, far) != r.self.id && Closest(r, far) !in reachable
    requires var r1 := Remove(r, Closest(r, far));
             && OnlyLost(r1, h.relays, reachable)
             && (h.next.Some? ==> h.next.value in h.relays.table)
             && Nearest(r1.table.Keys, h.relays.table.Keys, r.self.id, far, Target(r.self.id, h))
    ensures Nearest(r.table.Keys, h.relays.table.Keys, r.self.id, far, Target(r.self.id, h))
  {
    RetryStep(r, far, reachable);
    var t := Target(r.self.id, h);
    NoneNearer(r, far, t);
  }

  /** The relay chosen is the nearest of itself and the known relays it can
      reach, and exactly the nearer ones, none of which it could reach, have
      been forgotten. */
  lemma {:induction false} RouteIsNearestReachable(r: Relays, far: Distances, reachable: set<Id>, tries: nat,
                                                   h: Handled)
    requires Inv(r) && Orderly(far) && Route(r, far, reachable, tries) == Some(h)
    ensures Nearest(r.table.Keys, h.relays.table.Keys, r.self.id, far, Target(r.self.id, h))
    decreases tries
  {
    var c := Closest(r, far);
    if c == r.self.id || c in reachable {
      NothingLost(r, far);
    } else {
      RetryStep(r, far, reachable);
      var r1 := Remove(r, c);
      RouteIsNearestReachable(r1, far, reachable, tries - 1, h);
      TargetCanBeReached(r1, far, reachable, tries - 1);
      RouteLosesOnlyLost(r1, far, reachable, tries - 1, h);
      RetryKeepsNearest(r, far, reachable, h);
    }
  }

  // ---------------------------------------------------------------- the path of a query

  // Each relay on the path, whatever it then knew, sent the query on to the next.
  ghost predicate Forwarded(path: seq<Id>, views: seq<Relays>, far: Distances) {
    && |views| + 1 == |path|
    && forall i :: 0 <= i < |views| ==>
         && Inv(views[i]) && views[i].self.id == path[i]
         && Closest(views[i], far) == path[i + 1] && path[i + 1] != path[i]
  }

  /** Every forward is to a relay strictly nearer to the joiner, or as near with
      a lower id, so no query meets a relay twice. */
  lemma {:induction false} NoQueryCycles(path: seq<Id>, views: seq<Relays>, far: Distances, i: nat, j: nat)
    requires Orderly(far) && Forwarded(path, views, far) && i < j < |path|
    ensures Nearer(far, path[j], path[i]) && path[i] != path[j]
    decreases j
  {
    ClosestIsNearest(views[j - 1], far);
    assert Nearer(far, path[j], path[j - 1]);
    if i < j - 1 {
      NoQueryCycles(path, views, far, i, j - 1);
    }
  }

  /** So a query is forwarded fewer times than there are relays. */
  lemma QueriesEnd(path: seq<Id>, views: seq<Relays>, far: Distances, relays: set<Id>)
    requires Orderly(far) && Forwarded(path, views, far)
    requires forall i :: 0 <= i < |path| ==> path[i] in relays
    ensures |views| < |relays|
  {
    forall i, j | 0 <= i < j < |path|
      ensures path[i] != path[j]
    {
      NoQueryCycles(path, views, far, i, j);
    }
    FirstOfSize(path, |path|);
    SubsetSize(FirstOf(path, |path|), relays);
  }

  // ---------------------------------------------------------------- exactly when queries cycle

  function Knowing(self: Id, other: Id): Relays {
    var centre := Pos(0.0, 0.0, 0.0);
    Relays(Node(self, centre, 0), map[other := Node(other, centre, 0)], [Entry(0.0, other)], Nobody, None, Querying)
  }

  lemma KnowingIsFine(self: Id, other: Id)
    ensures Inv(Knowing(self, other))
  {
    var r := Knowing(self, other);
    forall id
      ensures CountOf(r.index, id) == if id in r.table.Keys then 1 else 0
    {
      assert r.index[1..] == [];
    }
  }

  lemma KnowingForwards(self: Id, other: Id, far: Distances)
    requires Better(other, far(other), Best(self, far(self)))
    ensures Closest(Knowing(self, other), far) == other
  {
    var r, best := Knowing(self, other), Best(self, far(self));
    assert Scan(r.index, far, best, 0) == best;
    assert Scan(r.index, far, best, 1) == Best(other, far(other));
  }

  // Relay a is farther off than b, by less than EQUAL_DISTANCE, and has the
  // lower id: a prefers b, and b prefers a.
  lemma CloseDistancesCycle(far: Distances, a: Id, b: Id)
    requires a < b && 0.0 < far(a) - far(b) < EQUAL_DISTANCE
    ensures Forwarded([a, b, a], [Knowing(a, b), Knowing(b, a)], far)
  {
    KnowingIsFine(a, b);
    KnowingIsFine(b, a);
    KnowingForwards(a, b, far);
    KnowingForwards(b, a, far);
  }

  ghost predicate Cycles(far: Distances, path: seq<Id>, views: seq<Relays>) {
    Forwarded(path, views, far) && exists i, j :: 0 <= i < j < |path| && path[i] == path[j]
  }

  /** A query can be thrown in a circle if and only if, of two relays, the one
      with the lower id is farther off by less than EQUAL_DISTANCE. */
  lemma QueriesCycleIff(far: Distances)
    ensures Orderly(far) <==> forall path: seq<Id>, views: seq<Relays> :: !Cycles(far, path, views)
  {
    if Orderly(far) {
      forall path: seq<Id>, views: seq<Relays>
        ensures !Cycles(far, path, views)
      {
        if Cycles(far, path, views) {
          var i, j :| 0 <= i < j < |path| && path[i] == path[j];
          NoQueryCycles(path, views, far, i, j);
        }
      }
    } else {
      var a: Id, b: Id :| a < b && far(a) > far(b) && far(a) - far(b) < EQUAL_DISTANCE;
      CloseDistancesCycle(far, a, b);
      var path, views := [a, b, a], [Knowing(a, b), Knowing(b, a)];
      assert path[0] == path[2];
      assert Cycles(far, path, views);
    }
  }
}
