/** Which subscribers can see which, and what has changed about it
    (VAST/VASTMatcher.cpp, refreshSubscriptionNeighbors; common/VASTTypes.h,
    Subscription). */
module Visibility {
  import opened OrderedKeys

  type Id = nat

  datatype Pos = Pos(x: real, y: real, z: real)

  datatype Area = Area(center: Pos, radius: nat, height: nat)

  datatype Status = Inserted | Deleted | Unchanged | Updated

  datatype Subscription = Subscription(
    id: Id, layer: nat, aoi: Area, inRegion: bool, neighbors: map<Id, Area>, states: map<Id, Status>)

  type Subscriptions = map<Id, Subscription>

  // What a matcher goes by: whether an area covers a position, whether its own
  // Voronoi region contains one, and which objects it owns.
  datatype View = View(covers: (Area, Pos) -> bool, contains: Pos -> bool, owned: set<Id>)

  ghost predicate Keyed(subs: Subscriptions) {
    forall id :: id in subs ==> subs[id].id == id
  }

  // A neighbour seen in this round.
  function AddNeighbor(s: Subscription, id: Id, aoi: Area): Subscription {
    if id in s.neighbors then
      if s.neighbors[id] != aoi then s.(states := s.states[id := Updated], neighbors := s.neighbors[id := aoi])
      else s.(states := s.states[id := Unchanged])
    else
      s.(states := s.states[id := Inserted], neighbors := s.neighbors[id := aoi])
  }

  // Neighbours not seen in this round are forgotten.
  function ClearInvisible(s: Subscription): Subscription {
    s.(neighbors := map id | id in s.neighbors && id in s.states :: s.neighbors[id],
       states := map id | id in s.states.Keys + s.neighbors.Keys ::
                   if id in s.states then s.states[id] else Deleted)
  }

  // ---------------------------------------------------------------- the definition

  // Layer 0 sees everybody in the matcher's region; other layers see those of
  // their own whose centre their area covers.
  predicate InSight(v: View, a: Subscription, b: Subscription) {
    || (a.layer == 0 && v.contains(b.aoi.center))
    || (a.layer == b.layer && v.covers(a.aoi, b.aoi.center))
  }

  // An owned subscription sees itself and all those in its sight; one that is
  // not owned sees only itself.
  function Visible(v: View, subs: Subscriptions, a: Id): set<Id>
    requires a in subs
  {
    set b | b in subs && (b == a || (a in v.owned && InSight(v, subs[a], subs[b])))
  }

  // What has become of a neighbour since the last round.
  function StatusOf(before: map<Id, Area>, id: Id, aoi: Area): Status {
    if id !in before then Inserted
    else if before[id] != aoi then Updated
    else Unchanged
  }

  function Refreshed(v: View, subs: Subscriptions, a: Id): Subscription
    requires a in subs
  {
    var s, seen := subs[a], Visible(v, subs, a);
    s.(inRegion := v.contains(s.aoi.center),
       neighbors := map b | b in seen :: subs[b].aoi,
       states := map b | b in seen + s.neighbors.Keys ::
                   if b in seen then StatusOf(s.neighbors, b, subs[b].aoi) else Deleted)
  }

  function Refresh(v: View, subs: Subscriptions): Subscriptions {
    map a | a in subs :: Refreshed(v, subs, a)
  }

  /** A round reports exactly what has changed: an owned subscriber of layer 0
      sees whoever is in the matcher's region, and any owned one those of its own
      layer that its area covers; whoever has come into view is inserted, whoever
      has gone out of it or off the record is deleted, and one still in view is
      updated when its area differs from the one last reported. */
  lemma ChangesAreReported(v: View, subs: Subscriptions, a: Id, b: Id)
    requires a in subs
    ensures var was, now := subs[a].neighbors, Refresh(v, subs)[a];
            && (b in now.neighbors <==>
                  && b in subs
                  && (b == a
                      || (a in v.owned && subs[a].layer == 0 && v.contains(subs[b].aoi.center))
                      || (a in v.owned && subs[a].layer == subs[b].layer && v.covers(subs[a].aoi, subs[b].aoi.center))))
            && (b in now.neighbors ==> now.neighbors[b] == subs[b].aoi)
            && (b in now.states <==> b in now.neighbors || b in was)
            && (b in now.states && now.states[b] == Inserted <==> b in now.neighbors && b !in was)
            && (b in now.states && now.states[b] == Deleted <==> b !in now.neighbors && b in was)
            && (b in now.states && now.states[b] == Updated <==>
                b in now.neighbors && b in was && was[b] != subs[b].aoi)
            && now == subs[a].(inRegion := v.contains(subs[a].aoi.center), neighbors := now.neighbors,
                               states := now.states)
  {
  }

  // Between two rounds subscriptions may come, go and move, but nobody's list of
  // neighbours is touched.
  predicate MovedOnly(subs: Subscriptions, later: Subscriptions, a: Id) {
    a in subs && a in later && later[a].neighbors == subs[a].neighbors
  }

  /** So over two rounds, whatever has moved, come or gone in between and whatever
      the matcher goes by now: inserted is who was out of view in the first round
      and is in view in the second, deleted is the reverse, and updated is who was
      in view in both and has changed its area in between. */
  lemma RoundsReportMoves(v: View, w: View, subs: Subscriptions, later: Subscriptions, a: Id, b: Id)
    requires MovedOnly(Refresh(v, subs), later, a)
    ensures var first, second := Refresh(v, subs)[a], Refresh(w, later)[a];
            && (b in second.states && second.states[b] == Inserted <==>
                  b !in first.neighbors && b in second.neighbors)
            && (b in second.states && second.states[b] == Deleted <==>
                  b in first.neighbors && b !in second.neighbors)
            && (b in second.states && second.states[b] == Updated <==>
                  b in first.neighbors && b in second.neighbors && subs[b].aoi != later[b].aoi)
  {
    ChangesAreReported(v, subs, a, b);
    ChangesAreReported(w, later, a, b);
  }

  /** A second round with nothing moved reports no change at all. */
  lemma SecondRoundIsQuiet(v: View, subs: Subscriptions, a: Id, b: Id)
    requires a in subs
    ensures var again := Refresh(v, Refresh(v, subs))[a];
            && again.neighbors == Refresh(v, subs)[a].neighbors
            && (b in again.states <==> b in again.neighbors)
            && (b in again.states ==> again.states[b] == Unchanged)
  {
    SameInView(v, subs, a);
    var once := Refresh(v, subs);
    assert Refresh(v, once)[a].neighbors == once[a].neighbors;
  }

  // A round moves nobody, so the same are visible after it.
  lemma SameInView(v: View, subs: Subscriptions, a: Id)
    requires a in subs
    ensures Visible(v, Refresh(v, subs), a) == Visible(v, subs, a)
    ensures forall b :: b in subs ==> Refresh(v, subs)[b].aoi == subs[b].aoi
  {
  }

  // ---------------------------------------------------------------- rounds in progress

  // A subscription as it starts the round, and when it has been shown those in
  // `seen`.
  function Cleared(v: View, s: Subscription): Subscription {
    s.(states := map[], inRegion := v.contains(s.aoi.center))
  }

  function Areas(subs: Subscriptions, seen: set<Id>): map<Id, Area>
    requires seen <= subs.Keys
  {
    map b | b in seen :: subs[b].aoi
  }

  function Statuses(was: map<Id, Area>, subs: Subscriptions, seen: set<Id>): map<Id, Status>
    requires seen <= subs.Keys
  {
    map b | b in seen :: StatusOf(was, b, subs[b].aoi)
  }

  function Shown(v: View, subs: Subscriptions, a: Id, seen: set<Id>): Subscription
    requires a in subs && seen <= subs.Keys
  {
    var s := Cleared(v, subs[a]);
    s.(neighbors := s.neighbors + Areas(subs, seen), states := Statuses(s.neighbors, subs, seen))
  }

  lemma OneMoreArea(was: map<Id, Area>, subs: Subscriptions, seen: set<Id>, b: Id)
    requires seen <= subs.Keys && b in subs && b !in seen
    ensures (was + Areas(subs, seen))[b := subs[b].aoi] == was + Areas(subs, seen + {b})
    ensures b in was + Areas(subs, seen) <==> b in was
    ensures b in was ==> (was + Areas(subs, seen))[b] == was[b]
    ensures b in was && was[b] == subs[b].aoi ==> was + Areas(subs, seen) == was + Areas(subs, seen + {b})
  {
  }

  lemma OneMoreStatus(was: map<Id, Area>, subs: Subscriptions, seen: set<Id>, b: Id)
    requires seen <= subs.Keys && b in subs && b !in seen
    ensures Statuses(was, subs, seen)[b := StatusOf(was, b, subs[b].aoi)] == Statuses(was, subs, seen + {b})
  {
  }

  // Showing one not shown before.
  lemma ShowOne(v: View, subs: Subscriptions, a: Id, seen: set<Id>, b: Id)
    requires a in subs && seen <= subs.Keys && b in subs && b !in seen
    ensures AddNeighbor(Shown(v, subs, a, seen), b, subs[b].aoi) == Shown(v, subs, a, seen + {b})
  {
    OneMoreArea(subs[a].neighbors, subs, seen, b);
    OneMoreStatus(subs[a].neighbors, subs, seen, b);
  }

  // Clearing once all visible ones have been shown completes the round.
  lemma ClearCompletes(v: View, subs: Subscriptions, a: Id)
    requires a in subs
    ensures ClearInvisible(Shown(v, subs, a, Visible(v, subs, a))) == Refreshed(v, subs, a)
  {
    var s, r := ClearInvisible(Shown(v, subs, a, Visible(v, subs, a))), Refreshed(v, subs, a);
    assert s.neighbors == r.neighbors;
    assert s.states == r.states;
  }

  // Whether a has been checked against b when the outer loop is at x and the
  // inner one at y.
  predicate Checked(x: Id, y: nat, a: Id, b: Id) {
    b < x || (a == x && x < b < y) || (x < a < y && b == x)
  }

  function SeenSoFar(v: View, subs: Subscriptions, x: Id, y: nat, a: Id): set<Id>
    requires a in subs
  {
    set b | b in subs && b != a && b in Visible(v, subs, a) && Checked(x, y, a, b)
  }

  // Where everybody stands with the loops at x and y.
  function Standing(v: View, subs: Subscriptions, x: Id, y: nat, a: Id): Subscription
    requires a in subs
  {
    if a < x then Refreshed(v, subs, a) else Shown(v, subs, a, SeenSoFar(v, subs, x, y, a))
  }

  ghost predicate Stand(v: View, subs: Subscriptions, x: Id, y: nat, now: Subscriptions) {
    && now.Keys == subs.Keys
    && forall a :: a in subs ==> now[a] == Standing(v, subs, x, y, a)
  }

  // z is the key after y, or the end of the walk.
  ghost predicate NextKey(subs: Subscriptions, y: nat, z: nat) {
    y < z && forall k :: k in subs && y < k ==> z <= k
  }

  // Checking the pair (x, y) moves only those two on.
  lemma PairMovesOn(v: View, subs: Subscriptions, x: Id, y: Id, z: nat, a: Id)
    requires a in subs && x in subs && y in subs && x < y && NextKey(subs, y, z) && a >= x
    ensures SeenSoFar(v, subs, x, z, a) ==
            SeenSoFar(v, subs, x, y, a) + (if a == x && y in Visible(v, subs, x) then {y} else {})
            + (if a == y && x in Visible(v, subs, y) then {x} else {})
    ensures a == x ==> y !in SeenSoFar(v, subs, x, y, a)
    ensures a == y ==> x !in SeenSoFar(v, subs, x, y, a)
  {
  }

  // When the inner loop is through, only x itself is still to be shown.
  lemma RowIsDone(v: View, subs: Subscriptions, x: Id, end: nat)
    requires x in subs && forall k :: k in subs ==> k < end
    ensures SeenSoFar(v, subs, x, end, x) + {x} == Visible(v, subs, x) && x !in SeenSoFar(v, subs, x, end, x)
  {
  }

  // And the next row starts where this one ends.
  lemma RowMovesOn(v: View, subs: Subscriptions, x: Id, end: nat, z: Id, w: nat, a: Id)
    requires a in subs && NextKey(subs, x, z) && NextKey(subs, z, w) && forall k :: k in subs ==> k < end
    requires a > x
    ensures a >= z && SeenSoFar(v, subs, x, end, a) == SeenSoFar(v, subs, z, w, a)
  {
  }

  // Subscription a shown b, if it is b's to be seen.
  function ShownTo(v: View, subs: Subscriptions, a: Id, b: Id, s: Subscription): Subscription
    requires a in subs && b in subs
  {
    if b in Visible(v, subs, a) then AddNeighbor(s, b, subs[b].aoi) else s
  }

  lemma ShownNext(v: View, subs: Subscriptions, x: Id, y: Id, z: nat, a: Id)
    requires a in subs && x in subs && y in subs && x < y && NextKey(subs, y, z) && a >= x
    ensures var s := Shown(v, subs, a, SeenSoFar(v, subs, x, y, a));
            Shown(v, subs, a, SeenSoFar(v, subs, x, z, a)) ==
            if a == x then ShownTo(v, subs, x, y, s) else if a == y then ShownTo(v, subs, y, x, s) else s
  {
    PairMovesOn(v, subs, x, y, z, a);
    var seen, next := SeenSoFar(v, subs, x, y, a), SeenSoFar(v, subs, x, z, a);
    if a == x && y in Visible(v, subs, x) {
      ShowOne(v, subs, x, seen, y);
      assert next == seen + {y};
    } else if a == y && x in Visible(v, subs, y) {
      ShowOne(v, subs, y, seen, x);
      assert next == seen + {x};
    } else {
      assert next == seen;
    }
  }

  // What checking a pair makes of anybody's standing.
  lemma StandingNext(v: View, subs: Subscriptions, x: Id, y: Id, z: nat, a: Id)
    requires a in subs && x in subs && y in subs && x < y && NextKey(subs, y, z)
    ensures var s := Standing(v, subs, x, y, a);
            Standing(v, subs, x, z, a) ==
            if a == x then ShownTo(v, subs, x, y, s) else if a == y then ShownTo(v, subs, y, x, s) else s
  {
    if a >= x {
      ShownNext(v, subs, x, y, z, a);
    }
  }

  lemma PairStands(v: View, subs: Subscriptions, x: Id, y: Id, z: nat, before: Subscriptions, after: Subscriptions)
    requires x in subs && y in subs && x < y && NextKey(subs, y, z) && Stand(v, subs, x, y, before)
    requires after == before[x := ShownTo(v, subs, x, y, before[x])][y := ShownTo(v, subs, y, x, before[y])]
    ensures Stand(v, subs, x, z, after)
  {
    forall a | a in subs
      ensures after[a] == Standing(v, subs, x, z, a)
    {
      StandingNext(v, subs, x, y, z, a);
      assert before[a] == Standing(v, subs, x, y, a);
    }
  }

  // The row's own subscription is as the definition says.
  lemma OwnRowIsDone(v: View, subs: Subscriptions, x: Id, end: nat, s: Subscription)
    requires x in subs && (forall k :: k in subs ==> k < end) && s == Standing(v, subs, x, end, x)
    ensures ClearInvisible(AddNeighbor(s, x, subs[x].aoi)) == Refreshed(v, subs, x)
  {
    var seen := SeenSoFar(v, subs, x, end, x);
    RowIsDone(v, subs, x, end);
    ShowOne(v, subs, x, seen, x);
    ClearCompletes(v, subs, x);
  }

  lemma OthersStay(v: View, subs: Subscriptions, x: Id, end: nat, z: Id, w: nat, a: Id)
    requires a in subs && a != x && NextKey(subs, x, z) && NextKey(subs, z, w) && forall k :: k in subs ==> k < end
    ensures Standing(v, subs, z, w, a) == Standing(v, subs, x, end, a)
  {
    if a > x {
      RowMovesOn(v, subs, x, end, z, w, a);
    }
  }

  lemma RowStands(v: View, subs: Subscriptions, x: Id, end: nat, z: nat, w: nat,
                  before: Subscriptions, s: Subscription, after: Subscriptions)
    requires x in subs && (forall k :: k in subs ==> k < end) && Stand(v, subs, x, end, before)
    requires NextKey(subs, x, z) && NextKey(subs, z, w) && z < w
    requires s == ClearInvisible(AddNeighbor(before[x], x, subs[x].aoi)) && after == before[x := s]
    ensures Stand(v, subs, z, w, after)
  {
    OwnRowIsDone(v, subs, x, end, before[x]);
    forall a | a in subs
      ensures after[a] == Standing(v, subs, z, w, a)
    {
      assert before[a] == Standing(v, subs, x, end, a);
      if a != x {
        OthersStay(v, subs, x, end, z, w, a);
      }
    }
  }

  // What a round does not touch.
  ghost predicate Alike(v: View, subs: Subscriptions, now: Subscriptions, a: Id)
    requires a in subs
  {
    && a in now && now[a].id == a && now[a].layer == subs[a].layer && now[a].aoi == subs[a].aoi
    && now[a].inRegion == v.contains(subs[a].aoi.center)
  }

  lemma StandAlike(v: View, subs: Subscriptions, x: Id, y: nat, now: Subscriptions, a: Id)
    requires Keyed(subs) && Stand(v, subs, x, y, now) && a in subs
    ensures Alike(v, subs, now, a)
  {
    assert now[a] == Standing(v, subs, x, y, a);
  }

  // The kth key of a walk; beyond it, numbers past every key.
  function At(keys: seq<Id>, end: nat, k: nat): nat {
    if k < |keys| then keys[k] else end + (k - |keys|)
  }

  ghost predicate Walks(subs: Subscriptions, keys: seq<Id>, end: nat) {
    && Ascends(keys) && (forall id :: id in subs <==> id in keys)
    && forall id :: id in subs ==> id < end
  }

  lemma NextAt(subs: Subscriptions, keys: seq<Id>, end: nat, k: nat, l: nat)
    requires Walks(subs, keys, end) && l == k + 1
    ensures NextKey(subs, At(keys, end, k), At(keys, end, l))
    ensures k < |keys| ==> keys[k] in subs
  {
    assert forall i :: 0 <= i < |keys| ==> keys[i] in keys;
    forall id | id in subs && At(keys, end, k) < id
      ensures At(keys, end, l) <= id
    {
      var i :| 0 <= i < |keys| && keys[i] == id;
    }
  }

  // Two keys on from the kth.
  lemma RowNext(subs: Subscriptions, keys: seq<Id>, end: nat, k: nat, x: Id, z: nat, w: nat)
    requires Walks(subs, keys, end) && k < |keys| && x == keys[k]
    requires z == At(keys, end, k + 1) && w == At(keys, end, k + 2)
    ensures x in subs && NextKey(subs, x, z) && NextKey(subs, z, w)
  {
    NextAt(subs, keys, end, k, k + 1);
    NextAt(subs, keys, end, k + 1, k + 2);
  }

  lemma RoundStarts(v: View, subs: Subscriptions, keys: seq<Id>, end: nat, now: Subscriptions)
    requires Walks(subs, keys, end) && keys != [] && now.Keys == subs.Keys
    requires forall a :: a in subs ==> now[a] == Cleared(v, subs[a])
    ensures Stand(v, subs, At(keys, end, 0), At(keys, end, 1), now)
  {
    NextAt(subs, keys, end, 0, 1);
    var x, y := At(keys, end, 0), At(keys, end, 1);
    forall a | a in subs
      ensures now[a] == Standing(v, subs, x, y, a)
    {
      var i :| 0 <= i < |keys| && keys[i] == a;
      NothingSeen(v, subs, x, y, a);
    }
  }

  lemma NothingSeen(v: View, subs: Subscriptions, x: Id, y: nat, a: Id)
    requires a in subs && NextKey(subs, x, y) && forall k :: k in subs ==> x <= k
    ensures SeenSoFar(v, subs, x, y, a) == {}
    ensures Shown(v, subs, a, SeenSoFar(v, subs, x, y, a)) == Cleared(v, subs[a])
  {
    var seen := SeenSoFar(v, subs, x, y, a);
    assert seen == {};
    assert subs[a].neighbors + Areas(subs, seen) == subs[a].neighbors;
  }

  lemma RoundEnds(v: View, subs: Subscriptions, x: nat, y: nat, now: Subscriptions)
    requires Stand(v, subs, x, y, now) && forall a :: a in subs ==> a < x
    ensures now == Refresh(v, subs)
  {
  }

  // ---------------------------------------------------------------- the matcher

  class Matcher {
    var subscriptions: Subscriptions

    // States are cleared, and who lies in the region is worked out, before any
    // pair is checked.
    method ClearStates(v: View, keys: seq<Id>)
      requires Ascends(keys) && forall k :: k in keys <==> k in subscriptions
      modifies this
      ensures subscriptions.Keys == old(subscriptions).Keys
      ensures forall a :: a in subscriptions ==> subscriptions[a] == Cleared(v, old(subscriptions)[a])
    {
      ghost var done: set<Id> := {};
      var i := 0;
      while i < |keys|
        invariant 0 <= i <= |keys| && subscriptions.Keys == old(subscriptions).Keys
        invariant forall j :: 0 <= j < |keys| ==> (keys[j] in done <==> j < i)
        invariant forall a :: a in subscriptions ==>
                    subscriptions[a] == if a in done then Cleared(v, old(subscriptions)[a]) else old(subscriptions)[a]
      {
        var x := keys[i];
        assert x in keys;
        ClearOne(v, x);
        done := done + {x};
        i := i + 1;
      }
      assert forall a :: a in subscriptions ==> a in keys;
    }

    method ClearOne(v: View, x: Id)
      requires x in subscriptions
      modifies this
      ensures subscriptions == old(subscriptions)[x := Cleared(v, old(subscriptions)[x])]
    {
      var s := subscriptions[x].(states := map[], inRegion := false);
      if v.contains(s.aoi.center) {
        s := s.(inRegion := true);
      }
      subscriptions := subscriptions[x := s];
    }

    // Whether a sees b.
    method CheckOne(v: View, a: Id, b: Id, ghost subs: Subscriptions)
      requires a in subs && b in subs && a != b && Alike(v, subs, subscriptions, a) && Alike(v, subs, subscriptions, b)
      modifies this
      ensures subscriptions == old(subscriptions)[a := ShownTo(v, subs, a, b, old(subscriptions)[a])]
    {
      if a in v.owned {
        var sub1, sub2 := subscriptions[a], subscriptions[b];
        if (sub1.layer == 0 && sub2.inRegion) || (sub1.layer == sub2.layer && v.covers(sub1.aoi, sub2.aoi.center)) {
          subscriptions := subscriptions[a := AddNeighbor(sub1, sub2.id, sub2.aoi)];
          return;
        }
      }
      assert subscriptions == subscriptions[a := subscriptions[a]];
    }

    // Two subscriptions against each other.
    method CheckPair(v: View, x: Id, y: Id, ghost subs: Subscriptions, ghost z: nat)
      requires Keyed(subs) && x in subs && y in subs && x < y && NextKey(subs, y, z)
      requires Stand(v, subs, x, y, subscriptions)
      modifies this
      ensures Stand(v, subs, x, z, subscriptions)
    {
      ghost var before := subscriptions;
      StandAlike(v, subs, x, y, before, x);
      StandAlike(v, subs, x, y, before, y);
      CheckOne(v, x, y, subs);
      CheckOne(v, y, x, subs);
      PairStands(v, subs, x, y, z, before, subscriptions);
    }

    /** Every pair is checked once, both ways, and each subscription is cleared
        of invisible neighbours as soon as its row is through: the outcome is
        that of checking each subscription against all others. */
    method RefreshSubscriptionNeighbors(v: View)
      requires Keyed(subscriptions)
      modifies this
      ensures subscriptions == Refresh(v, old(subscriptions))
    {
      ghost var subs := subscriptions;
      var keys := Ascending(subscriptions.Keys);
      ClearStates(v, keys);
      if |keys| == 0 {
        RoundEnds(v, subs, 0, 0, subscriptions);
        return;
      }
      ghost var end: nat := keys[|keys| - 1] + 1;
      RoundStarts(v, subs, keys, end, subscriptions);
      var i := 0;
      while i < |keys|
        invariant 0 <= i <= |keys|
        invariant Stand(v, subs, At(keys, end, i), At(keys, end, i + 1), subscriptions)
      {
        CheckRow(v, keys, i, subs, end);
        i := i + 1;
      }
      RoundEnds(v, subs, At(keys, end, i), At(keys, end, i + 1), subscriptions);
    }

    // One row of the half matrix.
    method CheckRow(v: View, keys: seq<Id>, i: nat, ghost subs: Subscriptions, ghost end: nat)
      requires Keyed(subs) && Walks(subs, keys, end) && i < |keys|
      requires Stand(v, subs, At(keys, end, i), At(keys, end, i + 1), subscriptions)
      modifies this
      ensures Stand(v, subs, At(keys, end, i + 1), At(keys, end, i + 2), subscriptions)
    {
      var x := keys[i];
      ghost var y, z, w := At(keys, end, i + 1), At(keys, end, i + 1), At(keys, end, i + 2);
      RowNext(subs, keys, end, i, x, z, w);
      var j := i + 1;
      while j < |keys|
        invariant i < j <= |keys| && y == At(keys, end, j)
        invariant Stand(v, subs, x, y, subscriptions)
      {
        var b := keys[j];
        ghost var next := At(keys, end, j + 1);
        RowNext(subs, keys, end, j, b, next, At(keys, end, j + 2));
        CheckPair(v, x, b, subs, next);
        j, y := j + 1, next;
      }
      ghost var before := subscriptions;
      assert y == end;
      StandAlike(v, subs, x, y, before, x);
      var s := ClearInvisible(AddNeighbor(subscriptions[x], subscriptions[x].id, subscriptions[x].aoi));
      subscriptions := subscriptions[x := s];
      RowStands(v, subs, x, y, z, w, before, s, subscriptions);
    }
  }
}
