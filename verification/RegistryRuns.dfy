/** What holds of the gateway registry over every run.

    The gateway believes its matchers.  The runs considered are those in which
    a matcher claims to be an origin only for the world a MATCHER_INIT last named
    to it, and, unless it has been replaced since, reports no other world.  It
    may go on claiming after it has been replaced, as long as it does not know
    of it, until it registers again. */
module RegistryRuns {
  import opened Options
  import opened OrderedKeys
  import opened Sequences
  import opened Registry

  // The world a matcher was last named origin of, whether it was an idle
  // candidate then (so that no earlier report of it can still arrive), and
  // whether it has been told since that another is.
  datatype Naming = Naming(world: World, idle: bool, replaced: bool)

  datatype Sys = Sys(reg: Registry, told: map<Id, Naming>)

  const START := Sys(Registry(map[], map[], map[]), map[])

  datatype Step =
    | DoRegister(addr: Addr, now: Time)
    | DoAlive(report: Report, now: Time)
    | DoJoin(reachable: set<Id>, w: World, client: Id)
    | DoDisconnect(m: Id)
    | DoSweep(now: Time, limit: Time)

  function Apply(r: Registry, step: Step): Result {
    match step
    case DoRegister(addr, now) => Result(Register(r, addr, now), [])
    case DoAlive(a, now) => Alive(r, a, now)
    case DoJoin(reachable, w, client) => Join(r, reachable, w, client)
    case DoDisconnect(m) => Disconnect(r, m)
    case DoSweep(now, limit) => Sweep(r, now, limit)
  }

  function Heard(told: map<Id, Naming>, out: Out, idle: bool): map<Id, Naming> {
    if !out.Init? then told
    else if out.origin == out.target then told[out.target := Naming(out.world, idle, false)]
    else Demoted(told, out.target)
  }

  function Demoted(told: map<Id, Naming>, m: Id): map<Id, Naming> {
    if m in told then told[m := Naming(told[m].world, false, true)] else told
  }

  // The claim of one that had been replaced is believed again once the world has
  // no origin.
  function Believed(told: map<Id, Naming>, m: Id): map<Id, Naming> {
    if m in told then told[m := told[m].(replaced := false)] else told
  }

  // Whether a report has left its matcher the origin it claims to be.
  predicate ClaimStands(s: Sys, r: Registry, a: Report) {
    var w, m := WorldOf(s.reg, a), a.addr.host;
    m == a.origin && w in r.origins && r.origins[w] == m
  }

  function HeardAll(told: map<Id, Naming>, outs: seq<Out>, idle: bool): map<Id, Naming> {
    if outs == [] then told
    else Heard(HeardAll(told, outs[..|outs| - 1], idle), outs[|outs| - 1], idle)
  }

  function Next(s: Sys, step: Step): Sys {
    var r := Apply(s.reg, step);
    var told := if step.DoRegister? && step.addr.host !in s.reg.matchers then s.told - {step.addr.host} else s.told;
    var heard := HeardAll(told, r.outs, step.DoJoin?);
    Sys(r.reg, if step.DoAlive? && ClaimStands(s, r.reg, step.report) then Believed(heard, step.report.addr.host)
               else heard)
  }

  // The assumption on matchers, by the message history alone.
  predicate Honest(s: Sys, step: Step) {
    match step
    case DoAlive(a, _) =>
      var m, w := a.addr.host, WorldOf(s.reg, a);
      && a.from == m
      && (w != 0 && m == a.origin ==> m in s.told && s.told[m].world == w)
      && (w != 0 && m != a.origin && m in s.told && !s.told[m].replaced ==>
            s.told[m].world == w && !s.told[m].idle)
    case DoJoin(_, w, _) => w != 0
    case DoRegister(addr, _) => addr.host != 0
    case _ => true
  }

  ghost predicate OriginsFine(r: Registry) {
    && (forall w :: w in r.origins ==>
          var m := r.origins[w];
          && w != 0 && m in r.matchers
          && (r.matchers[m].state == Promoting
              || (r.matchers[m].state == Origin && r.matchers[m].world == w)))
    && (forall w, v :: w in r.origins && v in r.origins && r.origins[w] == r.origins[v] ==> w == v)
  }

  ghost predicate MatchersFine(r: Registry) {
    forall m :: m in r.matchers ==>
      var i := r.matchers[m];
      && (i.state != Blank ==> i.addr.host == m)
      && (i.state == Candidate || i.state == Promoting ==> i.world == 0)
      && (i.state == Origin ==> i.world in r.origins && r.origins[i.world] == m)
  }

  ghost predicate RequestsFine(r: Registry) {
    forall w :: w in r.requests ==>
      && r.requests[w] != [] && NoRepeats(r.requests[w])
      && w in r.origins && r.origins[w] in r.matchers
      && r.matchers[r.origins[w]].state == Promoting
  }

  ghost predicate ToldFine(s: Sys) {
    && (forall w :: w in s.reg.origins ==>
          var m := s.reg.origins[w];
          m in s.told && s.told[m].world == w && !s.told[m].replaced)
    && (forall m :: m in s.reg.matchers && m in s.told ==>
          && s.reg.matchers[m].state != Candidate
          && (s.reg.matchers[m].state == Promoting ==>
                s.told[m].idle && s.told[m].world in s.reg.origins && s.reg.origins[s.told[m].world] == m))
  }

  ghost predicate Inv(s: Sys) {
    OriginsFine(s.reg) && MatchersFine(s.reg) && RequestsFine(s.reg) && ToldFine(s)
  }

  // ---------------------------------------------------------------- sweeps and disconnects

  // No expired matcher is an origin, so a sweep only forgets regular ones.
  lemma {:induction false} SweepForgets(r: Registry, now: Time, limit: Time, list: seq<Id>, n: nat)
    requires OriginsFine(r) && MatchersFine(r) && n <= |list|
    requires forall i :: 0 <= i < |list| ==> list[i] in ExpiredOnes(r, now, limit)
    ensures var gone := set i | 0 <= i < n :: list[i];
            SweepFirst(r, list, n) == Result(r.(matchers := r.matchers - gone), [])
  {
    if n > 0 {
      SweepForgets(r, now, limit, list, n - 1);
      var gone := set i | 0 <= i < n - 1 :: list[i];
      var all := set i | 0 <= i < n :: list[i];
      assert all == gone + {list[n - 1]};
      assert r.matchers - gone - {list[n - 1]} == r.matchers - all;
    }
  }

  /** A sweep removes exactly the regular matchers whose reports have stopped.
      In particular it never retires an origin, and never promotes a matcher it
      is about to remove. */
  lemma SweepIs(r: Registry, now: Time, limit: Time)
    requires OriginsFine(r) && MatchersFine(r)
    ensures Sweep(r, now, limit) == Result(r.(matchers := r.matchers - ExpiredOnes(r, now, limit)), [])
    ensures forall w :: w in r.origins ==> r.origins[w] !in ExpiredOnes(r, now, limit)
  {
    var list := Ascending(ExpiredOnes(r, now, limit));
    SweepForgets(r, now, limit, list, |list|);
    var all := set i | 0 <= i < |list| :: list[i];
    assert all == ExpiredOnes(r, now, limit) by {
      forall m
        ensures m in all <==> m in ExpiredOnes(r, now, limit)
      {
        assert m in list <==> m in all;
      }
    }
  }

  lemma SweepKeepsInv(s: Sys, step: Step)
    requires Inv(s) && step.DoSweep?
    ensures Inv(Next(s, step))
  {
    SweepIs(s.reg, step.now, step.limit);
  }

  // A confirmed origin that goes without a backup takes its world with it.
  lemma OriginLeaves(s: Sys, w: World, m: Id)
    requires Inv(s) && w in s.reg.origins && s.reg.origins[w] == m && s.reg.matchers[m].state == Origin
    ensures Inv(s.(reg := s.reg.(matchers := s.reg.matchers - {m}, origins := s.reg.origins - {w})))
  {
    assert w !in s.reg.requests;
  }

  // A backup takes over the world.
  ghost function Replaced(r: Registry, w: World, m: Id, b: Id): Registry
    requires b in r.matchers
  {
    r.(matchers := (r.matchers - {m})[b := r.matchers[b].(state := Origin)], origins := r.origins[w := b])
  }

  ghost predicate Replaceable(s: Sys, w: World, m: Id, b: Id) {
    && w in s.reg.origins && s.reg.origins[w] == m && m in s.reg.matchers && s.reg.matchers[m].state == Origin
    && b != m && b in s.reg.matchers && s.reg.matchers[b].state == Active && s.reg.matchers[b].world == w
  }

  lemma ReplacedFine(s: Sys, w: World, m: Id, b: Id)
    requires Inv(s) && Replaceable(s, w, m, b)
    ensures OriginsFine(Replaced(s.reg, w, m, b)) && MatchersFine(Replaced(s.reg, w, m, b))
    ensures RequestsFine(Replaced(s.reg, w, m, b))
  {
  }

  lemma DisconnectKeepsInv(s: Sys, step: Step)
    requires Inv(s) && step.DoDisconnect?
    ensures Inv(Next(s, step))
  {
    var r, m := s.reg, step.m;
    if IsOrigin(r, m) {
      var w := r.matchers[m].world;
      var backups := Backups(r.(matchers := r.matchers - {m}), w);
      if backups == {} {
        OriginLeaves(s, w, m);
      } else {
        var b := Least(backups);
        ReplacedFine(s, w, m, b);
        HeardAlone(s.told, Init(w, b, b), false);
      }
    }
  }

  lemma {:induction false} HeardAlone(told: map<Id, Naming>, out: Out, idle: bool)
    ensures HeardAll(told, [out], idle) == Heard(told, out, idle)
  {
    assert [out][..0] == [];
  }

  /** The disconnect of an origin goes unnoticed if and only if it is being
      promoted and has not reported yet; then nothing is sent either. */
  lemma MissedIffPromoting(s: Sys, w: World)
    requires Inv(s) && w in s.reg.origins
    ensures var m := s.reg.origins[w];
            && (Disconnect(s.reg, m).reg == s.reg <==> s.reg.matchers[m].state == Promoting)
            && (s.reg.matchers[m].state == Promoting ==> Disconnect(s.reg, m).outs == [])
  {
    var r, m := s.reg, s.reg.origins[w];
    if r.matchers[m].state != Promoting {
      assert IsOrigin(r, m);
      assert m !in Disconnect(r, m).reg.matchers;
    }
  }

  // ---------------------------------------------------------------- reports

  // What a single message out does to the naming history.
  lemma {:induction false} HeardOne(told: map<Id, Naming>, outs: seq<Out>, out: Out, idle: bool)
    ensures HeardAll(told, [], idle) == told
    ensures HeardAll(told, outs + [out], idle) == Heard(HeardAll(told, outs, idle), out, idle)
  {
    assert (outs + [out])[..|outs|] == outs;
  }

  lemma {:induction false} QuietOnes(told: map<Id, Naming>, outs: seq<Out>, idle: bool)
    requires forall i :: 0 <= i < |outs| ==> !outs[i].Init?
    ensures HeardAll(told, outs, idle) == told
  {
    if outs != [] {
      QuietOnes(told, outs[..|outs| - 1], idle);
    }
  }

  // Looking an unknown origin up only adds a blank entry.
  lemma ReplyKeepsInv(s: Sys, a: Report)
    requires Inv(s)
    ensures Inv(s.(reg := Reply(s.reg, a).reg))
    ensures forall i :: 0 <= i < |Reply(s.reg, a).outs| ==> Reply(s.reg, a).outs[i].WorldInfo?
  {
  }

  // What the history says of a reporting matcher.
  ghost predicate Trusted(s: Sys, w: World, m: Id, origin: bool) {
    && w != 0
    && (origin ==> m in s.told && s.told[m].world == w)
    && (!origin && m in s.told && !s.told[m].replaced ==> s.told[m].world == w && !s.told[m].idle)
  }

  lemma DemotionKeepsInv(s: Sys, m: Id)
    requires Inv(s)
    requires forall w :: w in s.reg.origins ==> s.reg.origins[w] != m
    ensures Inv(s.(told := Demoted(s.told, m)))
  {
  }

  // A claim to be origin that the gateway refuses: somebody else is.
  lemma RefusedClaim(s: Sys, w: World, m: Id, a: Report, now: Time)
    requires Inv(s) && Trusted(s, w, m, true) && a.addr.host == m
    requires m in s.reg.matchers && s.reg.matchers[m].state !in {Promoting, Origin} && w in s.reg.origins
    ensures Inv(Sys(Refresh(s.reg, w, m, a, now), Demoted(s.told, m)))
    ensures s.reg.origins[w] != m
  {
    assert forall v :: v in s.reg.origins ==> s.reg.origins[v] != m;
    DemotionKeepsInv(s.(reg := Refresh(s.reg, w, m, a, now)), m);
  }

  // The registry with m recorded as the origin of w and nobody waiting for w.
  ghost function Granted(r: Registry, w: World, m: Id, addr: Addr, now: Time): Registry {
    Registry(r.matchers[m := Info(Origin, w, addr, now)], r.origins[w := m], r.requests - {w})
  }

  ghost predicate Grantable(s: Sys, w: World, m: Id) {
    && Trusted(s, w, m, true)
    && ((m in s.reg.matchers && s.reg.matchers[m].state in {Promoting, Origin}) || w !in s.reg.origins)
  }

  lemma GrantedMatchers(s: Sys, w: World, m: Id, addr: Addr, now: Time)
    requires Inv(s) && Grantable(s, w, m) && addr.host == m
    ensures MatchersFine(Granted(s.reg, w, m, addr, now))
  {
  }

  lemma GrantedRequests(s: Sys, w: World, m: Id, addr: Addr, now: Time)
    requires Inv(s) && Grantable(s, w, m)
    ensures RequestsFine(Granted(s.reg, w, m, addr, now))
  {
  }

  // A claim that makes the matcher the origin of w, or confirms it.
  lemma GrantedClaim(s: Sys, w: World, m: Id, addr: Addr, now: Time)
    requires Inv(s) && Grantable(s, w, m) && addr.host == m
    ensures Inv(Sys(Granted(s.reg, w, m, addr, now), Believed(s.told, m)))
  {
    GrantedMatchers(s, w, m, addr, now);
    GrantedRequests(s, w, m, addr, now);
  }

  // What a report that claims nothing makes of a matcher's record.
  ghost function Regular(r: Registry, w: World, m: Id, addr: Addr, now: Time): Info {
    Info(if m in r.matchers && r.matchers[m].state !in {Candidate, Promoting} then r.matchers[m].state else Active,
         w, addr, now)
  }

  ghost function WithRegular(r: Registry, w: World, m: Id, addr: Addr, now: Time): Registry {
    r.(matchers := r.matchers[m := Regular(r, w, m, addr, now)])
  }

  lemma RegularTables(s: Sys, w: World, m: Id, addr: Addr, now: Time)
    requires Inv(s) && Trusted(s, w, m, false) && addr.host == m && (m in s.reg.matchers || w !in s.reg.origins)
    ensures OriginsFine(WithRegular(s.reg, w, m, addr, now)) && MatchersFine(WithRegular(s.reg, w, m, addr, now))
  {
  }

  // A report from a matcher that does not claim to be an origin.
  lemma RegularReport(s: Sys, w: World, m: Id, a: Report, now: Time)
    requires Inv(s) && Trusted(s, w, m, false) && a.addr.host == m && m != a.origin
    requires m in s.reg.matchers || w !in s.reg.origins
    ensures Settle(Refresh(s.reg, w, m, a, now), w, m, a) == Result(WithRegular(s.reg, w, m, a.addr, now), [])
    ensures Inv(s.(reg := WithRegular(s.reg, w, m, a.addr, now)))
  {
    RegularIs(s.reg, w, m, a, now);
    RegularTables(s, w, m, a.addr, now);
  }

  lemma RegularIs(r: Registry, w: World, m: Id, a: Report, now: Time)
    requires m != a.origin
    ensures Settle(Refresh(r, w, m, a, now), w, m, a) == Result(WithRegular(r, w, m, a.addr, now), [])
  {
    var i := Regular(r, w, m, a.addr, now);
    assert Refresh(r, w, m, a, now).matchers[m := i] == r.matchers[m := i];
  }

  // A granted claim in the registry's own terms.
  lemma GrantIs(r: Registry, w: World, m: Id, a: Report, now: Time)
    requires m == a.origin
    requires (m in r.matchers && r.matchers[m].state in {Promoting, Origin}) || w !in r.origins
    ensures Settle(Refresh(r, w, m, a, now), w, m, a) ==
            Result(Granted(r, w, m, a.addr, now), if w in r.requests then [Notify(w, a.addr, r.requests[w])] else [])
  {
    var r1 := Refresh(r, w, m, a, now);
    assert r1.matchers[m := Info(Origin, w, a.addr, now)] == r.matchers[m := Info(Origin, w, a.addr, now)];
    assert w !in r.requests ==> r.requests - {w} == r.requests;
  }

  lemma RefusalIs(r: Registry, w: World, m: Id, a: Report, now: Time)
    requires m == a.origin && a.from == m
    requires m in r.matchers && r.matchers[m].state !in {Promoting, Origin} && w in r.origins
    ensures Settle(Refresh(r, w, m, a, now), w, m, a) ==
            Result(Refresh(r, w, m, a, now), [Init(w, r.origins[w], m)])
  {
  }

  lemma SettleKeepsInv(s: Sys, w: World, m: Id, a: Report, now: Time)
    requires Inv(s) && Trusted(s, w, m, m == a.origin) && a.addr.host == m && a.from == m
    requires m in s.reg.matchers || w !in s.reg.origins
    ensures var n := Settle(Refresh(s.reg, w, m, a, now), w, m, a);
            var heard := HeardAll(s.told, n.outs, false);
            && (m == a.origin && w in n.reg.origins && n.reg.origins[w] == m ==> Inv(Sys(n.reg, Believed(heard, m))))
            && (!(m == a.origin && w in n.reg.origins && n.reg.origins[w] == m) ==> Inv(Sys(n.reg, heard)))
  {
    var r := s.reg;
    var n := Settle(Refresh(r, w, m, a, now), w, m, a);
    if m != a.origin {
      RegularReport(s, w, m, a, now);
    } else if m in r.matchers && r.matchers[m].state !in {Promoting, Origin} && w in r.origins {
      RefusedClaim(s, w, m, a, now);
      RefusalIs(r, w, m, a, now);
      HeardOne(s.told, [], Init(w, r.origins[w], m), false);
      assert n.outs == [] + [Init(w, r.origins[w], m)];
    } else {
      GrantedClaim(s, w, m, a.addr, now);
      GrantIs(r, w, m, a, now);
      QuietOnes(s.told, n.outs, false);
    }
  }

  // A report of a matcher that is not on record, when its world has an origin.
  lemma UnknownReport(s: Sys, a: Report, now: Time)
    requires Inv(s) && a.from == a.addr.host && WorldOf(s.reg, a) != 0
    requires a.addr.host !in Reply(s.reg, a).reg.matchers && WorldOf(s.reg, a) in s.reg.origins
    ensures Inv(Sys(Alive(s.reg, a, now).reg, HeardAll(s.told, Alive(s.reg, a, now).outs, false)))
    ensures !ClaimStands(s, Alive(s.reg, a, now).reg, a)
  {
    var w, m := WorldOf(s.reg, a), a.addr.host;
    var replied := Reply(s.reg, a);
    ReplyKeepsInv(s, a);
    HeardOne(s.told, replied.outs, Init(w, s.reg.origins[w], m), false);
    QuietOnes(s.told, replied.outs, false);
    assert forall v :: v in s.reg.origins ==> s.reg.origins[v] != m;
    DemotionKeepsInv(s.(reg := replied.reg), m);
  }

  lemma KnownReport(s: Sys, a: Report, now: Time)
    requires Inv(s) && a.from == a.addr.host && Trusted(s, WorldOf(s.reg, a), a.addr.host, a.addr.host == a.origin)
    requires a.addr.host in Reply(s.reg, a).reg.matchers || WorldOf(s.reg, a) !in s.reg.origins
    ensures var n := Alive(s.reg, a, now);
            var heard := HeardAll(s.told, n.outs, false);
            Inv(Sys(n.reg, if ClaimStands(s, n.reg, a) then Believed(heard, a.addr.host) else heard))
  {
    var w, m := WorldOf(s.reg, a), a.addr.host;
    var replied := Reply(s.reg, a);
    ReplyKeepsInv(s, a);
    var s1 := s.(reg := replied.reg);
    var settled := Settle(Refresh(replied.reg, w, m, a, now), w, m, a);
    SettleKeepsInv(s1, w, m, a, now);
    HeardAfter(s.told, replied.outs, settled.outs);
  }

  lemma AliveKeepsInv(s: Sys, step: Step)
    requires Inv(s) && step.DoAlive? && Honest(s, step)
    ensures Inv(Next(s, step))
  {
    var a := step.report;
    var w, m := WorldOf(s.reg, a), a.addr.host;
    if w != 0 {
      if m !in Reply(s.reg, a).reg.matchers && w in s.reg.origins {
        UnknownReport(s, a, step.now);
      } else {
        KnownReport(s, a, step.now);
      }
    }
  }

  lemma {:induction false} HeardAfter(told: map<Id, Naming>, outs: seq<Out>, more: seq<Out>)
    requires forall i :: 0 <= i < |outs| ==> !outs[i].Init?
    ensures HeardAll(told, outs + more, false) == HeardAll(told, more, false)
  {
    if more == [] {
      assert outs + more == outs;
      QuietOnes(told, outs, false);
    } else {
      var n := |more| - 1;
      HeardAfter(told, outs, more[..n]);
      assert outs + more == (outs + more[..n]) + [more[n]];
      HeardOne(told, outs + more[..n], more[n], false);
      assert more == more[..n] + [more[n]];
      HeardOne(told, more[..n], more[n], false);
    }
  }

  // ---------------------------------------------------------------- joining

  // Candidates up to the one that could be reached are being promoted now.
  function TakenUpTo(r: Registry, taken: set<Id>): Registry {
    r.(matchers := map m | m in r.matchers ::
                     if m in taken then r.matchers[m].(state := Promoting) else r.matchers[m])
  }

  function Upto(r: Registry, c: Option<Id>): set<Id> {
    set m | m in Candidates(r) && (c.None? || m <= c.value)
  }

  ghost predicate OwnHosts(r: Registry) {
    forall m :: m in Candidates(r) ==> r.matchers[m].addr.host == m
  }

  /** JOIN's promotion loop fails exactly when no candidate can be reached, and
      else ends at the lowest reachable one. */
  lemma {:induction false} PromotePicks(r: Registry, reachable: set<Id>)
    requires OwnHosts(r)
    ensures var c := Promote(r, reachable).1;
            && (c.None? <==> Candidates(r) !! reachable)
            && (c.Some? ==> c.value in Candidates(r) && c.value in reachable)
            && (c.Some? ==> forall m :: m in Candidates(r) && m in reachable ==> c.value <= m)
    decreases |Candidates(r)|
  {
    if Candidates(r) != {} {
      var least := Least(Candidates(r));
      var r1 := SetState(r, least, Promoting);
      assert Candidates(r1) == Candidates(r) - {least};
      if least !in reachable {
        PromotePicks(r1, reachable);
      }
    }
  }

  lemma TakenTwice(r: Registry, least: Id, c: Option<Id>)
    requires least in Candidates(r) && forall m :: m in Candidates(r) ==> least <= m
    requires c.Some? ==> least <= c.value
    ensures var r1 := SetState(r, least, Promoting);
            TakenUpTo(r1, Upto(r1, c)) == TakenUpTo(r, Upto(r, c))
  {
    var r1 := SetState(r, least, Promoting);
    assert Candidates(r1) == Candidates(r) - {least};
    assert Upto(r, c) == Upto(r1, c) + {least};
    assert TakenUpTo(r1, Upto(r1, c)).matchers == TakenUpTo(r, Upto(r, c)).matchers;
  }

  /** What the loop leaves behind: the candidates up to the chosen one, or all
      of them when it fails, are no longer candidates. */
  lemma {:induction false} PromoteTakes(r: Registry, reachable: set<Id>)
    requires OwnHosts(r)
    ensures var (r1, c) := Promote(r, reachable);
            r1 == TakenUpTo(r, Upto(r, c))
    decreases |Candidates(r)|
  {
    if Candidates(r) == {} {
      assert TakenUpTo(r, Upto(r, None)).matchers == r.matchers;
    } else {
      var least := Least(Candidates(r));
      var r1 := SetState(r, least, Promoting);
      assert Candidates(r1) == Candidates(r) - {least};
      if least in reachable {
        assert Upto(r, Some(least)) == {least};
        assert r1.matchers == TakenUpTo(r, {least}).matchers;
      } else {
        PromoteTakes(r1, reachable);
        PromotePicks(r1, reachable);
        TakenTwice(r, least, Promote(r1, reachable).1);
      }
    }
  }

  // Candidates taken up without being named to any world.
  lemma TakingKeepsInv(s: Sys, taken: set<Id>)
    requires Inv(s) && taken <= Candidates(s.reg)
    ensures Inv(s.(reg := TakenUpTo(s.reg, taken)))
  {
    assert forall w :: w in s.reg.origins ==> s.reg.origins[w] !in taken;
  }

  lemma WaitingKeepsInv(s: Sys, w: World, client: Id)
    requires Inv(s) && w in s.reg.origins && s.reg.matchers[s.reg.origins[w]].state == Promoting
    ensures Inv(s.(reg := AddWaiting(s.reg, w, client)))
  {
  }

  lemma NamingKeepsInv(s: Sys, w: World, c: Id)
    requires Inv(s) && w != 0 && w !in s.reg.origins
    requires c in s.reg.matchers && s.reg.matchers[c].state == Promoting && c !in s.told
    ensures Inv(Sys(s.reg.(origins := s.reg.origins[w := c]), s.told[c := Naming(w, true, false)]))
  {
    assert forall v :: v in s.reg.origins ==> s.reg.origins[v] != c;
  }

  // A JOIN for a world that has no origin yet.
  lemma NewWorldKeepsInv(s: Sys, reachable: set<Id>, w: World, client: Id)
    requires Inv(s) && w != 0 && w !in s.reg.origins
    ensures var n := Join(s.reg, reachable, w, client);
            Inv(Sys(n.reg, HeardAll(s.told, n.outs, true)))
  {
    var r := s.reg;
    PromotePicks(r, reachable);
    PromoteTakes(r, reachable);
    var (r1, c) := Promote(r, reachable);
    TakingKeepsInv(s, Upto(r, c));
    if c.Some? {
      NamingKeepsInv(s.(reg := r1), w, c.value);
      var told := s.told[c.value := Naming(w, true, false)];
      WaitingKeepsInv(Sys(r1.(origins := r1.origins[w := c.value]), told), w, client);
      HeardAlone(s.told, Init(w, c.value, c.value), true);
    }
  }

  lemma JoinKeepsInv(s: Sys, step: Step)
    requires Inv(s) && step.DoJoin? && Honest(s, step)
    ensures Inv(Next(s, step))
  {
    var r, w := s.reg, step.w;
    if w !in r.origins {
      NewWorldKeepsInv(s, step.reachable, w, step.client);
    } else if r.matchers[r.origins[w]].state == Promoting {
      WaitingKeepsInv(s, w, step.client);
    } else {
      QuietOnes(s.told, Apply(r, step).outs, true);
    }
  }

  // ---------------------------------------------------------------- runs

  lemma StepKeepsInv(s: Sys, step: Step)
    requires Inv(s) && Honest(s, step)
    ensures Inv(Next(s, step))
  {
    match step
    case DoRegister(_, _) =>
    case DoAlive(_, _) => AliveKeepsInv(s, step);
    case DoJoin(_, _, _) => JoinKeepsInv(s, step);
    case DoDisconnect(_) => DisconnectKeepsInv(s, step);
    case DoSweep(_, _) => SweepKeepsInv(s, step);
  }

  ghost predicate Runs(ss: seq<Sys>, steps: seq<Step>) {
    && |ss| == |steps| + 1 && ss[0] == START
    && forall i :: 0 <= i < |steps| ==> Honest(ss[i], steps[i]) && ss[i + 1] == Next(ss[i], steps[i])
  }

  lemma {:induction false} RunKeepsInv(ss: seq<Sys>, steps: seq<Step>, n: nat)
    requires Runs(ss, steps) && n < |ss|
    ensures Inv(ss[n])
  {
    if n > 0 {
      RunKeepsInv(ss, steps, n - 1);
      StepKeepsInv(ss[n - 1], steps[n - 1]);
    }
  }

  /** After every message and sweep: no matcher is the origin of two worlds,
      every origin is on record, is being promoted or is confirmed, and a
      confirmed one records the very world it is the origin of. */
  lemma OriginsAlwaysFine(ss: seq<Sys>, steps: seq<Step>, n: nat, w: World, v: World)
    requires Runs(ss, steps) && n < |ss|
    requires w in ss[n].reg.origins && v in ss[n].reg.origins
    ensures var r := ss[n].reg;
            && (r.origins[w] == r.origins[v] ==> w == v)
            && r.origins[w] in r.matchers
            && r.matchers[r.origins[w]].state in {Promoting, Origin}
            && (r.matchers[r.origins[w]].state == Origin ==> r.matchers[r.origins[w]].world == w)
  {
    RunKeepsInv(ss, steps, n);
  }

  // ---------------------------------------------------------------- waiting clients

  predicate Waits(s: Sys, w: World, client: Id) {
    w in s.reg.requests && client in s.reg.requests[w]
  }

  ghost predicate Told(s: Sys, step: Step, w: World, client: Id) {
    exists out :: out in Apply(s.reg, step).outs && out.Notify? && out.world == w && client in out.clients
  }

  predicate Joins(step: Step, w: World, client: Id) {
    step.DoJoin? && step.w == w && step.client == client
  }

  /** Clients wait for a world only while its origin is being promoted, nobody
      waits twice, and no empty list is kept. */
  lemma ListsOnlyWhilePromoting(ss: seq<Sys>, steps: seq<Step>, n: nat, w: World)
    requires Runs(ss, steps) && n < |ss| && w in ss[n].reg.requests
    ensures var r := ss[n].reg;
            && r.requests[w] != [] && NoRepeats(r.requests[w])
            && w in r.origins && r.origins[w] in r.matchers
            && r.matchers[r.origins[w]].state == Promoting
  {
    RunKeepsInv(ss, steps, n);
  }

  // What a report does to the waiting lists and whom it tells.
  lemma AliveAnswers(s: Sys, step: Step)
    requires Inv(s) && step.DoAlive? && Honest(s, step)
    ensures var a := step.report;
            var w, n := WorldOf(s.reg, a), Alive(s.reg, a, step.now);
            if w in s.reg.requests && a.addr.host == s.reg.origins[w] then
              && a.origin == a.addr.host
              && n.reg.requests == s.reg.requests - {w}
              && n.outs == Reply(s.reg, a).outs + [Notify(w, a.addr, s.reg.requests[w])]
            else
              && n.reg.requests == s.reg.requests
              && forall i :: 0 <= i < |n.outs| ==> !n.outs[i].Notify?
  {
    var a := step.report;
    var w, m := WorldOf(s.reg, a), a.addr.host;
    var replied := Reply(s.reg, a);
    if w in s.reg.requests && m == s.reg.origins[w] {
      assert s.reg.matchers[m].state == Promoting && m == a.origin;
      assert replied.reg == s.reg;
      GrantIs(s.reg, w, m, a, step.now);
    }
  }

  /** Nobody who waits is dropped: a waiting list either stays, in order, or is
      answered in full with the address of that very world's origin, once, and
      is then gone. */
  lemma ListStaysOrIsAnswered(s: Sys, step: Step, w: World)
    requires Inv(s) && Honest(s, step) && w in s.reg.requests
    ensures var n := Apply(s.reg, step);
            if w in n.reg.requests then
              && s.reg.requests[w] <= n.reg.requests[w]
              && forall i :: 0 <= i < |n.outs| && n.outs[i].Notify? ==> n.outs[i].world != w
            else
              && step.DoAlive? && step.report.addr.host == s.reg.origins[w]
              && n.outs == Reply(s.reg, step.report).outs + [Notify(w, step.report.addr, s.reg.requests[w])]
              && forall i :: 0 <= i < |n.outs| - 1 ==> !n.outs[i].Notify?
  {
    match step
    case DoAlive(_, _) => AliveAnswers(s, step);
    case DoJoin(reachable, v, _) => if v !in s.reg.origins { PromoteTakes(s.reg, reachable); }
    case DoSweep(now, limit) => SweepIs(s.reg, now, limit);
    case _ =>
  }

  // Only a JOIN of its own makes a client wait.
  lemma OnlyJoinersWait(s: Sys, step: Step, w: World, client: Id)
    requires Inv(s) && Honest(s, step)
    requires Waits(Next(s, step), w, client) && !Waits(s, w, client)
    ensures Joins(step, w, client)
  {
    match step
    case DoAlive(_, _) => AliveAnswers(s, step);
    case DoJoin(reachable, v, _) => if v !in s.reg.origins { PromoteTakes(s.reg, reachable); }
    case DoSweep(now, limit) => SweepIs(s.reg, now, limit);
    case _ =>
  }

  // A client is told about a world when it joins, or when it stops waiting.
  lemma OnlyWaitersAreTold(s: Sys, step: Step, w: World, client: Id)
    requires Inv(s) && Honest(s, step) && Told(s, step, w, client)
    ensures Joins(step, w, client) || Waits(s, w, client)
    ensures !Waits(Next(s, step), w, client)
  {
    match step
    case DoAlive(_, _) => AliveAnswers(s, step);
    case DoJoin(reachable, v, _) => if v !in s.reg.origins { PromoteTakes(s.reg, reachable); }
    case DoSweep(now, limit) => SweepIs(s.reg, now, limit);
    case _ =>
  }

  /** What becomes of a JOIN: the client waits for an origin being promoted, is
      told a confirmed origin's address at once, or, exactly when the world has
      no origin and no candidate can be reached, is turned away. */
  lemma JoinOutcome(s: Sys, step: Step)
    requires Inv(s) && step.DoJoin? && Honest(s, step)
    ensures var n := Apply(s.reg, step);
            var w := step.w;
            && (step.client in (if w in n.reg.requests then n.reg.requests[w] else []) <==>
                  if w in s.reg.origins then s.reg.matchers[s.reg.origins[w]].state == Promoting
                  else !(Candidates(s.reg) !! step.reachable))
            && (Told(s, step, w, step.client) <==>
                  w in s.reg.origins && s.reg.matchers[s.reg.origins[w]].state == Origin)
  {
    var w := step.w;
    if w !in s.reg.origins {
      PromotePicks(s.reg, step.reachable);
    } else if s.reg.matchers[s.reg.origins[w]].state == Origin {
      var outs := Apply(s.reg, step).outs;
      assert outs[0] in outs && outs[0].Notify? && step.client in outs[0].clients;
    }
  }

  // A client that stops waiting is told.
  lemma ToldWhenNotWaiting(s: Sys, step: Step, w: World, client: Id)
    requires Inv(s) && Honest(s, step)
    requires Waits(s, w, client) && !Waits(Next(s, step), w, client)
    ensures Told(s, step, w, client)
  {
    ListStaysOrIsAnswered(s, step, w);
    var outs := Apply(s.reg, step).outs;
    assert outs[|outs| - 1] in outs;
  }

  lemma WaitsOrIsTold(ss: seq<Sys>, steps: seq<Step>, k: nat, w: World, client: Id)
    requires Runs(ss, steps) && k < |steps| && Waits(ss[k], w, client)
    ensures Waits(ss[k + 1], w, client) || Told(ss[k], steps[k], w, client)
  {
    RunKeepsInv(ss, steps, k);
    if !Waits(ss[k + 1], w, client) {
      ToldWhenNotWaiting(ss[k], steps[k], w, client);
    }
  }

  /** Over every run, a client that waits goes on waiting until it is told. */
  lemma {:induction false} NobodyIsLost(ss: seq<Sys>, steps: seq<Step>, i: nat, j: nat, w: World, client: Id)
    requires Runs(ss, steps) && i <= j < |ss| && Waits(ss[i], w, client)
    ensures Waits(ss[j], w, client) || exists k :: i <= k < j && Told(ss[k], steps[k], w, client)
    decreases j - i
  {
    if i < j {
      WaitsOrIsTold(ss, steps, i, w, client);
      if Waits(ss[i + 1], w, client) {
        NobodyIsLost(ss, steps, i + 1, j, w, client);
      }
    }
  }

  lemma NotWaitingNext(ss: seq<Sys>, steps: seq<Step>, k: nat, w: World, client: Id)
    requires Runs(ss, steps) && k < |steps| && !Waits(ss[k], w, client) && !Joins(steps[k], w, client)
    ensures !Waits(ss[k + 1], w, client)
  {
    RunKeepsInv(ss, steps, k);
    if Waits(ss[k + 1], w, client) {
      OnlyJoinersWait(ss[k], steps[k], w, client);
    }
  }

  // Who does not wait, and does not join, does not come to wait.
  lemma {:induction false} NotWaiting(ss: seq<Sys>, steps: seq<Step>, i: nat, j: nat, w: World, client: Id)
    requires Runs(ss, steps) && i <= j < |ss| && !Waits(ss[i], w, client)
    requires forall k :: i <= k < j ==> !Joins(steps[k], w, client)
    ensures !Waits(ss[j], w, client)
    decreases j - i
  {
    if i < j {
      NotWaitingNext(ss, steps, i, w, client);
      NotWaiting(ss, steps, i + 1, j, w, client);
    }
  }

  /** Over every run, a client is told about a world at most once per JOIN. */
  lemma OncePerJoin(ss: seq<Sys>, steps: seq<Step>, i: nat, j: nat, w: World, client: Id)
    requires Runs(ss, steps) && i < j < |steps|
    requires Told(ss[i], steps[i], w, client) && Told(ss[j], steps[j], w, client)
    ensures exists k :: i < k <= j && Joins(steps[k], w, client)
  {
    RunKeepsInv(ss, steps, i);
    RunKeepsInv(ss, steps, j);
    OnlyWaitersAreTold(ss[i], steps[i], w, client);
    OnlyWaitersAreTold(ss[j], steps[j], w, client);
    if forall k :: i < k <= j ==> !Joins(steps[k], w, client) {
      NotWaiting(ss, steps, i + 1, j, w, client);
    }
  }

  predicate PromotingFor(r: Registry, w: World, m: Id) {
    w in r.origins && r.origins[w] == m && m in r.matchers && r.matchers[m].state == Promoting
  }

  // Nobody else's report changes that.
  lemma OthersReport(s: Sys, w: World, m: Id, v: World, k: Id, a: Report, now: Time)
    requires Inv(s) && PromotingFor(s.reg, w, m) && Trusted(s, v, k, k == a.origin)
    requires k != m && a.addr.host == k && a.from == k && (k in s.reg.matchers || v !in s.reg.origins)
    ensures PromotingFor(Settle(Refresh(s.reg, v, k, a, now), v, k, a).reg, w, m)
  {
    var r := s.reg;
    if k != a.origin {
      RegularIs(r, v, k, a, now);
    } else if k in r.matchers && r.matchers[k].state !in {Promoting, Origin} && v in r.origins {
      RefusalIs(r, v, k, a, now);
    } else {
      GrantIs(r, v, k, a, now);
      assert v != w;
    }
  }

  lemma AlivePromoting(s: Sys, step: Step, w: World, m: Id)
    requires Inv(s) && step.DoAlive? && Honest(s, step) && PromotingFor(s.reg, w, m)
    requires step.report.addr.host != m
    ensures PromotingFor(Alive(s.reg, step.report, step.now).reg, w, m)
  {
    var a := step.report;
    var v, k := WorldOf(s.reg, a), a.addr.host;
    if v != 0 {
      ReplyKeepsInv(s, a);
      var r := Reply(s.reg, a).reg;
      assert PromotingFor(r, w, m);
      if k in r.matchers || v !in r.origins {
        OthersReport(s.(reg := r), w, m, v, k, a, step.now);
      }
    }
  }

  lemma DisconnectPromoting(s: Sys, w: World, m: Id, gone: Id)
    requires Inv(s) && PromotingFor(s.reg, w, m)
    ensures PromotingFor(Disconnect(s.reg, gone).reg, w, m)
  {
    if gone == m {
      MissedIffPromoting(s, w);
    } else if IsOrigin(s.reg, gone) {
      assert s.reg.matchers[gone].world != w;
    }
  }

  lemma JoinPromoting(s: Sys, w: World, m: Id, reachable: set<Id>, v: World, client: Id)
    requires Inv(s) && PromotingFor(s.reg, w, m)
    ensures PromotingFor(Join(s.reg, reachable, v, client).reg, w, m)
  {
    if v !in s.reg.origins {
      PromoteTakes(s.reg, reachable);
    }
  }

  // An origin being promoted stays so until it reports.
  lemma PromotingStays(s: Sys, step: Step, w: World, m: Id)
    requires Inv(s) && Honest(s, step) && PromotingFor(s.reg, w, m)
    requires step.DoAlive? ==> step.report.addr.host != m
    ensures PromotingFor(Next(s, step).reg, w, m)
  {
    match step
    case DoRegister(_, _) =>
    case DoAlive(_, _) => AlivePromoting(s, step, w, m);
    case DoJoin(reachable, v, client) => JoinPromoting(s, w, m, reachable, v, client);
    case DoDisconnect(gone) => DisconnectPromoting(s, w, m, gone);
    case DoSweep(now, limit) => SweepIs(s.reg, now, limit);
  }

  /** Over every run, clients wait for a promoted origin as long as it sends no
      report, whatever else happens: its own disconnect is no help to them. */
  lemma {:induction false} WaitingGoesOn(ss: seq<Sys>, steps: seq<Step>, i: nat, j: nat, w: World, client: Id)
    requires Runs(ss, steps) && i <= j < |ss| && Waits(ss[i], w, client)
    requires w in ss[i].reg.origins
    requires forall k :: i <= k < j && steps[k].DoAlive? ==> steps[k].report.addr.host != ss[i].reg.origins[w]
    ensures Waits(ss[j], w, client)
    ensures w in ss[j].reg.origins && ss[j].reg.origins[w] == ss[i].reg.origins[w]
    decreases j - i
  {
    if i < j {
      RunKeepsInv(ss, steps, i);
      PromotingStays(ss[i], steps[i], w, ss[i].reg.origins[w]);
      ListStaysOrIsAnswered(ss[i], steps[i], w);
      WaitingGoesOn(ss, steps, i + 1, j, w, client);
    }
  }

  // ---------------------------------------------------------------- what the assumption buys

  /** Without it origins are shared: a matcher that claims to be the origin of
      one world and then of another is recorded as the origin of both. */
  lemma ShiftingClaimsShareAnOrigin(m: Id, w: World, v: World, now: Time, later: Time)
    requires w != 0 && v != 0 && w != v
    ensures var addr := Addr(m, 0);
            var r1 := Alive(START.reg, Report(false, w, addr, m, m), now).reg;
            var r2 := Alive(r1, Report(false, v, addr, m, m), later).reg;
            w in r2.origins && v in r2.origins && r2.origins[w] == m && r2.origins[v] == m
  {
  }

  /** A claim that was allowed stays allowed, refused or not: the one that makes
      it need not hear of the refusal. */
  lemma ClaimsMayBeRepeated(s: Sys, step: Step)
    requires Inv(s) && step.DoAlive? && Honest(s, step) && step.report.origin == step.report.addr.host
    ensures Honest(Next(s, step), step)
  {
    var a := step.report;
    var w, m := WorldOf(s.reg, a), a.addr.host;
    if w != 0 {
      assert m in Next(s, step).told && Next(s, step).told[m].world == w by {
        ClaimKeepsNaming(s, step);
      }
    }
  }

  lemma ClaimKeepsNaming(s: Sys, step: Step)
    requires Inv(s) && step.DoAlive? && Honest(s, step) && step.report.origin == step.report.addr.host
    requires WorldOf(s.reg, step.report) != 0
    ensures var n, m := Next(s, step), step.report.addr.host;
            && m in n.told && n.told[m].world == WorldOf(s.reg, step.report)
            && WorldOf(n.reg, step.report) == WorldOf(s.reg, step.report)
  {
    var a := step.report;
    var w, m := WorldOf(s.reg, a), a.addr.host;
    var replied := Reply(s.reg, a);
    ReplyKeepsInv(s, a);
    if m !in replied.reg.matchers && w in s.reg.origins {
      HeardOne(s.told, replied.outs, Init(w, s.reg.origins[w], m), false);
      QuietOnes(s.told, replied.outs, false);
    } else {
      SettledNaming(s.(reg := replied.reg), w, m, a, step.now);
      HeardAfter(s.told, replied.outs, Settle(Refresh(replied.reg, w, m, a, step.now), w, m, a).outs);
    }
  }

  lemma SettledNaming(s: Sys, w: World, m: Id, a: Report, now: Time)
    requires m == a.origin && a.from == m && m in s.told && s.told[m].world == w
    requires m in s.reg.matchers || w !in s.reg.origins
    ensures var n := Settle(Refresh(s.reg, w, m, a, now), w, m, a);
            && m in HeardAll(s.told, n.outs, false) && HeardAll(s.told, n.outs, false)[m].world == w
            && m in n.reg.matchers && n.reg.matchers[m].world == w
  {
    var r := s.reg;
    if m in r.matchers && r.matchers[m].state !in {Promoting, Origin} && w in r.origins {
      RefusalIs(r, w, m, a, now);
      HeardAlone(s.told, Init(w, r.origins[w], m), false);
    } else {
      GrantIs(r, w, m, a, now);
      QuietOnes(s.told, Settle(Refresh(r, w, m, a, now), w, m, a).outs, false);
    }
  }

  /** After a report by another, a matcher not on record cannot volunteer any more
      if and only if the report asked for the world's address and named that very
      matcher as the origin: looking it up has left a blank entry. */
  lemma ShutOutIff(r: Registry, a: Report, now: Time, addr: Addr, later: Time)
    requires addr.host !in r.matchers && addr.host != a.addr.host
    ensures addr.host !in Candidates(Register(Alive(r, a, now).reg, addr, later)) <==>
            WorldOf(r, a) != 0 && a.wantsReply && a.origin == addr.host
  {
    var r1 := Alive(r, a, now).reg;
    assert addr.host in r1.matchers <==> WorldOf(r, a) != 0 && a.wantsReply && a.origin == addr.host;
  }
}
