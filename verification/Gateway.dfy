/** The gateway matcher (VAST/VASTMatcher.cpp): its three tables, changed in
    place by the message handlers and the time-out sweep. */
module Gateways {
  import opened Options
  import opened OrderedKeys
  import opened Registry

  // The registry once its first candidate has been taken.
  function Taken(r: Registry): Registry
    requires Candidates(r) != {}
  {
    SetState(r, Least(Candidates(r)), Promoting)
  }

  lemma TakenHasFewer(r: Registry)
    requires Candidates(r) != {}
    ensures |Candidates(Taken(r))| < |Candidates(r)|
  {
    assert Candidates(Taken(r)) == Candidates(r) - {Least(Candidates(r))};
  }

  class Gateway {
    var matchers: map<Id, Info>
    var origins: map<World, Id>
    var requests: map<World, seq<Id>>

    function State(): Registry
      reads this
    {
      Registry(matchers, origins, requests)
    }

    constructor ()
      ensures State() == Registry(map[], map[], map[])
    {
      matchers, origins, requests := map[], map[], map[];
    }

    method HandleCandidate(addr: Addr, now: Time)
      modifies this
      ensures State() == Register(old(State()), addr, now)
    {
      if addr.host in matchers {
        return;
      }
      matchers := matchers[addr.host := Info(Candidate, 0, addr, now)];
    }

    // The part of a report's handling that decides who is origin.
    method SettleOrigin(w: World, m: Id, a: Report) returns (outs: seq<Out>)
      requires m in matchers
      modifies this
      ensures Result(State(), outs) == Settle(old(State()), w, m, a)
    {
      outs := [];
      if m == a.origin {
        if matchers[m].state == Promoting {
          matchers := matchers[m := matchers[m].(state := Origin)];
        } else if matchers[m].state != Origin {
          if w !in origins {
            matchers := matchers[m := matchers[m].(state := Origin)];
          } else {
            outs := [Init(w, origins[w], a.from)];
            return;
          }
        }
        assert matchers == SetState(old(State()), m, Origin).matchers;
        if w in requests {
          outs := [Notify(w, a.addr, requests[w])];
          requests := requests - {w};
        }
        if w !in origins {
          origins := origins[w := m];
        } else if origins[w] != m {
          origins := origins[w := m];
        }
        assert origins == old(origins)[w := m];
      } else if matchers[m].state == Candidate || matchers[m].state == Promoting {
        matchers := matchers[m := matchers[m].(state := Active)];
      }
    }

    method HandleAlive(a: Report, now: Time) returns (outs: seq<Out>)
      modifies this
      ensures Result(State(), outs) == Alive(old(State()), a, now)
    {
      outs := [];
      var w := a.world;
      if w == 0 {
        if a.origin !in matchers || matchers[a.origin].world == 0 {
          return;
        }
        w := matchers[a.origin].world;
      }
      var m := a.addr.host;
      if a.wantsReply {
        if a.origin !in matchers {
          matchers := matchers[a.origin := BLANK];
        }
        outs := [WorldInfo(w, matchers[a.origin].addr, a.from)];
      }
      assert Result(State(), outs) == Reply(old(State()), a);
      label Replied:
      if m !in matchers {
        if w in origins {
          outs := outs + [Init(w, origins[w], a.from)];
          return;
        }
        matchers := matchers[m := Info(Active, 0, a.addr, 0)];
      }
      matchers := matchers[m := matchers[m].(time := now, world := w)];
      if matchers[m].addr != a.addr {
        matchers := matchers[m := matchers[m].(addr := a.addr)];
      }
      assert matchers == Refresh(old@Replied(State()), w, m, a, now).matchers;
      var more := SettleOrigin(w, m, a);
      outs := outs + more;
    }

    // The first candidate in id order, now being promoted.
    method FindCandidate() returns (addr: Option<Addr>)
      modifies this
      ensures addr.None? <==> Candidates(old(State())) == {}
      ensures addr.None? ==> State() == old(State())
      ensures addr.Some? ==>
                var c := Least(Candidates(old(State())));
                addr.value == old(matchers)[c].addr && State() == SetState(old(State()), c, Promoting)
    {
      var walk := Ascending(matchers.Keys);
      var i := 0;
      while i < |walk|
        invariant 0 <= i <= |walk| && State() == old(State())
        invariant forall j :: 0 <= j < i ==> walk[j] !in Candidates(State())
      {
        var m := walk[i];
        assert m in walk;
        if matchers[m].state == Candidate {
          FirstIsLeast(walk, i, Candidates(State()));
          matchers := matchers[m := matchers[m].(state := Promoting)];
          return Some(matchers[m].addr);
        }
        i := i + 1;
      }
      assert forall m :: m in matchers ==> m in walk;
      return None;
    }

    method StoreRequestingClient(w: World, client: Id)
      modifies this
      ensures State() == AddWaiting(old(State()), w, client)
    {
      if w !in requests {
        requests := requests[w := []];
      }
      var list := requests[w];
      var i := 0;
      while i < |list|
        invariant 0 <= i <= |list| && forall j :: 0 <= j < i ==> list[j] != client
      {
        if list[i] == client {
          break;
        }
        i := i + 1;
      }
      if i == |list| {
        requests := requests[w := list + [client]];
      }
    }

    /** `reachable`: the hosts to which a MATCHER_INIT would be sent now. */
    method HandleJoin(reachable: set<Id>, w: World, client: Id) returns (outs: seq<Out>)
      modifies this
      ensures Result(State(), outs) == Join(old(State()), reachable, w, client)
    {
      outs := [];
      if w !in origins {
        var done := false;
        ghost var before := State();
        var addr := FindCandidate();
        while addr.Some? && !done
          invariant Promote(before, reachable) == Promote(old(State()), reachable)
          invariant addr.None? ==> Candidates(before) == {} && State() == before && !done
          invariant addr.Some? ==>
                      Candidates(before) != {} && addr.value == before.matchers[Least(Candidates(before))].addr
          invariant addr.Some? && !done ==> State() == Taken(before)
          invariant done ==> addr.Some? && addr.value.host in reachable
          invariant done ==> State() == Taken(before).(origins := before.origins[w := addr.value.host])
          invariant outs == if done then [Init(w, addr.value.host, addr.value.host)] else []
          decreases |Candidates(before)|, !done
        {
          if addr.value.host in reachable {
            origins := origins[w := addr.value.host];
            outs := [Init(w, addr.value.host, addr.value.host)];
            done := true;
          } else {
            TakenHasFewer(before);
            before := State();
            addr := FindCandidate();
          }
        }
        if done {
          StoreRequestingClient(w, client);
        }
      } else {
        var m := origins[w];
        if m !in matchers {
          if m == 0 {
            origins := origins - {w};
          }
        } else if matchers[m].state == Promoting {
          StoreRequestingClient(w, client);
        } else {
          outs := [Notify(w, matchers[m].addr, [client])];
        }
      }
    }

    method OriginDisconnected(m: Id) returns (outs: seq<Out>)
      modifies this
      ensures Result(State(), outs) == OriginGone(old(State()), m)
    {
      outs := [];
      if m !in matchers {
        return;
      }
      var w := matchers[m].world;
      matchers := matchers - {m};
      ghost var left := State();
      var walk := Ascending(matchers.Keys);
      var i := 0;
      while i < |walk|
        invariant 0 <= i <= |walk| && State() == left
        invariant forall j :: 0 <= j < i ==> walk[j] !in Backups(left, w)
      {
        var b := walk[i];
        assert b in walk;
        if matchers[b].world == w && matchers[b].state == Active {
          FirstIsLeast(walk, i, Backups(left, w));
          matchers := matchers[b := matchers[b].(state := Origin)];
          origins := origins[w := b];
          outs := [Init(w, matchers[b].addr.host, matchers[b].addr.host)];
          return;
        }
        i := i + 1;
      }
      assert forall b :: b in matchers ==> b in walk;
      assert Backups(left, w) == {};
      origins := origins - {w};
    }

    method HandleDisconnect(m: Id) returns (outs: seq<Out>)
      modifies this
      ensures Result(State(), outs) == Disconnect(old(State()), m)
    {
      outs := [];
      if IsOrigin(State(), m) {
        outs := OriginDisconnected(m);
      }
    }

    // The expired ones of a walk, in order.
    method FilterExpired(walk: seq<Id>, now: Time, limit: Time) returns (list: seq<Id>)
      requires Ascends(walk) && forall i :: 0 <= i < |walk| ==> walk[i] in matchers
      ensures Ascends(list)
      ensures forall k :: 0 <= k < |list| ==> list[k] in matchers && Expired(matchers[list[k]], now, limit)
      ensures forall j :: 0 <= j < |walk| && Expired(matchers[walk[j]], now, limit) ==> walk[j] in list
    {
      list := [];
      var i := 0;
      while i < |walk|
        invariant 0 <= i <= |walk| && Ascends(list)
        invariant forall k :: 0 <= k < |list| && i < |walk| ==> list[k] < walk[i]
        invariant forall k :: 0 <= k < |list| ==> list[k] in matchers && Expired(matchers[list[k]], now, limit)
        invariant forall j :: 0 <= j < i && Expired(matchers[walk[j]], now, limit) ==> walk[j] in list
      {
        if Expired(matchers[walk[i]], now, limit) {
          list := list + [walk[i]];
        }
        i := i + 1;
      }
    }

    // The removal list, drawn up before anything is removed.
    method ListExpired(now: Time, limit: Time) returns (list: seq<Id>)
      ensures list == Ascending(ExpiredOnes(State(), now, limit))
    {
      var walk := Ascending(matchers.Keys);
      assert forall i :: 0 <= i < |walk| ==> walk[i] in walk;
      list := FilterExpired(walk, now, limit);
      assert forall m :: m in matchers ==> m in walk;
      AscendingIs(list, ExpiredOnes(State(), now, limit));
    }

    method RemoveListed(list: seq<Id>) returns (outs: seq<Out>)
      modifies this
      ensures Result(State(), outs) == SweepFirst(old(State()), list, |list|)
    {
      outs := [];
      var i := 0;
      while i < |list|
        invariant 0 <= i <= |list|
        invariant Result(State(), outs) == SweepFirst(old(State()), list, i)
      {
        var m := list[i];
        var next := i + 1;
        if IsOrigin(State(), m) {
          var more := OriginDisconnected(m);
          outs := outs + more;
        } else {
          matchers := matchers - {m};
        }
        i := next;
      }
    }

    method RemoveExpiredMatchers(now: Time, limit: Time) returns (outs: seq<Out>)
      modifies this
      ensures Result(State(), outs) == Sweep(old(State()), now, limit)
    {
      var list := ListExpired(now, limit);
      outs := RemoveListed(list);
    }
  }
}
