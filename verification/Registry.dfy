/** The gateway's registry of worlds, origin matchers and waiting clients
    (VAST/VASTMatcher.cpp): what every handler does to it. */
module Registry {
  import opened Options
  import opened OrderedKeys

  type Id = nat
  type World = nat
  type Time = nat

  datatype Addr = Addr(host: Id, ip: nat)

  // Blank is the zero value a map lookup leaves behind.
  datatype MatcherState = Blank | Candidate | Promoting | Active | Origin

  datatype Info = Info(state: MatcherState, world: World, addr: Addr, time: Time)

  const BLANK := Info(Blank, 0, Addr(0, 0), 0)

  datatype Registry = Registry(matchers: map<Id, Info>, origins: map<World, Id>, requests: map<World, seq<Id>>)

  // Messages out.  `world` in Notify is history; the message holds the address.
  datatype Out =
    | Init(world: World, origin: Id, target: Id)
    | Notify(world: World, addr: Addr, clients: seq<Id>)
    | WorldInfo(world: World, addr: Addr, target: Id)

  datatype Result = Result(reg: Registry, outs: seq<Out>)

  function SetState(r: Registry, m: Id, s: MatcherState): Registry
    requires m in r.matchers
  {
    r.(matchers := r.matchers[m := r.matchers[m].(state := s)])
  }

  // MATCHER_CANDIDATE
  function Register(r: Registry, addr: Addr, now: Time): Registry {
    if addr.host in r.matchers then r
    else r.(matchers := r.matchers[addr.host := Info(Candidate, 0, addr, now)])
  }

  // A MATCHER_ALIVE report.
  datatype Report = Report(wantsReply: bool, world: World, addr: Addr, origin: Id, from: Id)

  // The world a report is about: its own, or its origin's recorded one.
  function WorldOf(r: Registry, a: Report): World {
    if a.world != 0 then a.world
    else if a.origin in r.matchers then r.matchers[a.origin].world
    else 0
  }

  // Answering a request for world info looks the origin up, which records a
  // blank entry for an unknown one.
  function Reply(r: Registry, a: Report): Result {
    if !a.wantsReply then Result(r, [])
    else
      var r1 := if a.origin in r.matchers then r else r.(matchers := r.matchers[a.origin := BLANK]);
      Result(r1, [WorldInfo(WorldOf(r, a), r1.matchers[a.origin].addr, a.from)])
  }

  // Everybody waiting for world w is told the address; the list is dropped.
  function AnswerWaiting(r: Registry, w: World, addr: Addr): Result {
    if w in r.requests then Result(r.(requests := r.requests - {w}), [Notify(w, addr, r.requests[w])])
    else Result(r, [])
  }

  // The report of a known matcher whose record has just been refreshed.
  function Settle(r: Registry, w: World, m: Id, a: Report): Result
    requires m in r.matchers
  {
    var state := r.matchers[m].state;
    if m == a.origin then
      if state != Promoting && state != Origin && w in r.origins then
        Result(r, [Init(w, r.origins[w], a.from)])
      else
        var answered := AnswerWaiting(SetState(r, m, Origin), w, a.addr);
        Result(answered.reg.(origins := r.origins[w := m]), answered.outs)
    else if state == Candidate || state == Promoting then
      Result(SetState(r, m, Active), [])
    else
      Result(r, [])
  }

  function Refresh(r: Registry, w: World, m: Id, a: Report, now: Time): Registry {
    var state := if m in r.matchers then r.matchers[m].state else Active;
    r.(matchers := r.matchers[m := Info(state, w, a.addr, now)])
  }

  function Alive(r: Registry, a: Report, now: Time): Result {
    var w, m := WorldOf(r, a), a.addr.host;
    if w == 0 then Result(r, [])
    else
      var replied := Reply(r, a);
      if m !in replied.reg.matchers && w in r.origins then
        Result(replied.reg, replied.outs + [Init(w, r.origins[w], a.from)])
      else
        var settled := Settle(Refresh(replied.reg, w, m, a, now), w, m, a);
        Result(settled.reg, replied.outs + settled.outs)
  }

  function Candidates(r: Registry): set<Id> {
    set m | m in r.matchers && r.matchers[m].state == Candidate
  }

  // Candidates are taken in id order until a MATCHER_INIT gets through.
  function Promote(r: Registry, reachable: set<Id>): (p: (Registry, Option<Id>))
    ensures p.0.matchers.Keys == r.matchers.Keys && p.0.origins == r.origins && p.0.requests == r.requests
    ensures p.1.Some? ==> p.1.value in p.0.matchers
    decreases |Candidates(r)|
  {
    if Candidates(r) == {} then (r, None)
    else
      var c := Least(Candidates(r));
      var r1 := SetState(r, c, Promoting);
      assert Candidates(r1) == Candidates(r) - {c};
      if r.matchers[c].addr.host in reachable then (r1, Some(c)) else Promote(r1, reachable)
  }

  function AddWaiting(r: Registry, w: World, client: Id): Registry {
    var list := if w in r.requests then r.requests[w] else [];
    r.(requests := r.requests[w := if client in list then list else list + [client]])
  }

  // JOIN for a world id already resolved to a nonzero one.
  function Join(r: Registry, reachable: set<Id>, w: World, client: Id): Result {
    if w !in r.origins then
      var (r1, c) := Promote(r, reachable);
      if c.None? then Result(r1, [])
      else
        var host := r1.matchers[c.value].addr.host;
        Result(AddWaiting(r1.(origins := r1.origins[w := host]), w, client), [Init(w, host, host)])
    else
      var m := r.origins[w];
      if m !in r.matchers then
        Result(if m == 0 then r.(origins := r.origins - {w}) else r, [])
      else if r.matchers[m].state == Promoting then
        Result(AddWaiting(r, w, client), [])
      else
        Result(r, [Notify(w, r.matchers[m].addr, [client])])
  }

  predicate IsOrigin(r: Registry, m: Id) {
    m in r.matchers && r.matchers[m].world in r.origins && r.origins[r.matchers[m].world] == m
  }

  function Backups(r: Registry, w: World): set<Id> {
    set m | m in r.matchers && r.matchers[m].world == w && r.matchers[m].state == Active
  }

  function OriginGone(r: Registry, m: Id): Result {
    if m !in r.matchers then Result(r, [])
    else
      var w := r.matchers[m].world;
      var r1 := r.(matchers := r.matchers - {m});
      if Backups(r1, w) == {} then Result(r1.(origins := r1.origins - {w}), [])
      else
        var b := Least(Backups(r1, w));
        var host := r1.matchers[b].addr.host;
        Result(SetState(r1, b, Origin).(origins := r1.origins[w := b]), [Init(w, host, host)])
  }

  // DISCONNECT
  function Disconnect(r: Registry, m: Id): Result {
    if IsOrigin(r, m) then OriginGone(r, m) else Result(r, [])
  }

  predicate Expired(i: Info, now: Time, limit: Time) {
    i.state == Active && now > i.time + limit
  }

  function ExpiredOnes(r: Registry, now: Time, limit: Time): set<Id> {
    set m | m in r.matchers && Expired(r.matchers[m], now, limit)
  }

  // The first n of a removal list drawn up before the sweep.
  function SweepFirst(r: Registry, list: seq<Id>, n: nat): Result
    requires n <= |list|
  {
    if n == 0 then Result(r, [])
    else
      var s := SweepFirst(r, list, n - 1);
      var m := list[n - 1];
      if IsOrigin(s.reg, m) then
        var gone := OriginGone(s.reg, m);
        Result(gone.reg, s.outs + gone.outs)
      else
        Result(s.reg.(matchers := s.reg.matchers - {m}), s.outs)
  }

  function Sweep(r: Registry, now: Time, limit: Time): Result {
    var list := Ascending(ExpiredOnes(r, now, limit));
    SweepFirst(r, list, |list|)
  }
}
