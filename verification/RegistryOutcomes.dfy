/** What the gateway does with reports, departures and sweeps, told by the
    messages that came before them. */
module RegistryOutcomes {
  import opened Options
  import opened OrderedKeys
  import opened Registry
  import opened RegistryRuns

  // ---------------------------------------------------------------- departures

  predicate IsBackup(r: Registry, w: World, m: Id, b: Id) {
    b != m && b in r.matchers && r.matchers[b].state == Active && r.matchers[b].world == w
  }

  predicate Confirmed(r: Registry, w: World) {
    w in r.origins && r.origins[w] in r.matchers && r.matchers[r.origins[w]].state == Origin
  }

  /** A confirmed origin that disconnects is replaced by the lowest of its
      world's regular matchers, which alone is told; nothing else changes. */
  lemma BackupTakesOver(s: Sys, w: World, b: Id)
    requires Inv(s) && Confirmed(s.reg, w) && IsBackup(s.reg, w, s.reg.origins[w], b)
    requires forall c :: IsBackup(s.reg, w, s.reg.origins[w], c) ==> b <= c
    ensures var r, m := s.reg, s.reg.origins[w];
            Disconnect(r, m) == Result(Registry((r.matchers - {m})[b := r.matchers[b].(state := Origin)],
                                                r.origins[w := b], r.requests),
                                       [Init(w, b, b)])
  {
    var r, m := s.reg, s.reg.origins[w];
    var backups := Backups(r.(matchers := r.matchers - {m}), w);
    assert forall c :: c in backups <==> IsBackup(r, w, m, c);
    assert Least(backups) == b;
  }

  /** Without such a matcher the world is left without an origin, silently. */
  lemma WorldIsLeft(s: Sys, w: World)
    requires Inv(s) && Confirmed(s.reg, w)
    requires forall c :: !IsBackup(s.reg, w, s.reg.origins[w], c)
    ensures var r, m := s.reg, s.reg.origins[w];
            Disconnect(r, m) == Result(Registry(r.matchers - {m}, r.origins - {w}, r.requests), [])
  {
    var r, m := s.reg, s.reg.origins[w];
    var backups := Backups(r.(matchers := r.matchers - {m}), w);
    assert forall c :: c in backups <==> IsBackup(r, w, m, c);
    assert backups == {};
  }

  // Whoever is not a confirmed origin may go unnoticed.
  lemma OthersGoUnnoticed(s: Sys, m: Id)
    requires Inv(s) && forall w :: Confirmed(s.reg, w) ==> s.reg.origins[w] != m
    ensures Disconnect(s.reg, m) == Result(s.reg, [])
  {
    assert IsOrigin(s.reg, m) ==> Confirmed(s.reg, s.reg.matchers[m].world);
  }

  // ---------------------------------------------------------------- origins over a step

  lemma ReportsKeepOrigins(s: Sys, step: Step, w: World)
    requires Inv(s) && Honest(s, step) && step.DoAlive? && w in s.reg.origins
    ensures var r := Apply(s.reg, step).reg; w in r.origins && r.origins[w] == s.reg.origins[w]
  {
    var a := step.report;
    var v, m := WorldOf(s.reg, a), a.addr.host;
    if v != 0 {
      ReplyKeepsInv(s, a);
      var r := Reply(s.reg, a).reg;
      if m != a.origin {
        RegularIs(r, v, m, a, step.now);
      } else if m in r.matchers && r.matchers[m].state !in {Promoting, Origin} && v in r.origins {
        RefusalIs(r, v, m, a, step.now);
      } else if m in r.matchers || v !in r.origins {
        GrantIs(r, v, m, a, step.now);
      }
    }
  }

  lemma DeparturesKeepOrigins(s: Sys, gone: Id, w: World)
    requires Inv(s) && w in s.reg.origins
    ensures var r := Disconnect(s.reg, gone).reg;
            w in r.origins && r.origins[w] == s.reg.origins[w] <==> gone != s.reg.origins[w] || !Confirmed(s.reg, w)
    ensures var r := Disconnect(s.reg, gone).reg;
            w !in r.origins <==>
              gone == s.reg.origins[w] && Confirmed(s.reg, w) && forall b :: !IsBackup(s.reg, w, gone, b)
  {
    var r := s.reg;
    if v: World :| Confirmed(r, v) && r.origins[v] == gone {
      if b: Id :| IsBackup(r, v, gone, b) {
        var backups := set c | c in r.matchers && IsBackup(r, v, gone, c);
        assert b in backups && forall c :: IsBackup(r, v, gone, c) ==> c in backups;
        var least := Least(backups);
        BackupTakesOver(s, v, least);
      } else {
        WorldIsLeft(s, v);
      }
    } else {
      OthersGoUnnoticed(s, gone);
    }
  }

  /** A world's origin is replaced or lost exactly by its own disconnect once it
      is confirmed, and lost exactly when there is no regular matcher left for
      the world then. */
  lemma OriginChangesIff(s: Sys, step: Step, w: World)
    requires Inv(s) && Honest(s, step) && w in s.reg.origins
    ensures var r, m := Apply(s.reg, step).reg, s.reg.origins[w];
            && (w in r.origins && r.origins[w] == m <==> step != DoDisconnect(m) || !Confirmed(s.reg, w))
            && (w !in r.origins <==>
                  step == DoDisconnect(m) && Confirmed(s.reg, w) && forall b :: !IsBackup(s.reg, w, m, b))
  {
    match step
    case DoRegister(_, _) =>
    case DoAlive(_, _) => ReportsKeepOrigins(s, step, w);
    case DoJoin(reachable, v, _) => if v !in s.reg.origins { PromoteTakes(s.reg, reachable); }
    case DoDisconnect(gone) => DeparturesKeepOrigins(s, gone, w);
    case DoSweep(now, limit) => SweepIs(s.reg, now, limit);
  }

  // ---------------------------------------------------------------- joining a new world

  // The lowest candidate that can be reached.
  predicate IsChosen(r: Registry, reachable: set<Id>, c: Id) {
    && c in r.matchers && r.matchers[c].state == Candidate && c in reachable
    && forall m :: m in r.matchers && r.matchers[m].state == Candidate && m in reachable ==> c <= m
  }

  /** A JOIN for a world without an origin names the lowest reachable candidate
      its origin, which alone is told, and makes the client wait; that candidate,
      and the lower ones tried in vain, are candidates no longer. */
  lemma JoinNames(s: Sys, step: Step, c: Id, m: Id)
    requires Inv(s) && step.DoJoin? && Honest(s, step) && step.w !in s.reg.origins
    requires IsChosen(s.reg, step.reachable, c)
    ensures var n, w := Apply(s.reg, step), step.w;
            && n.outs == [Init(w, c, c)]
            && n.reg.origins == s.reg.origins[w := c] && n.reg.requests == s.reg.requests[w := [step.client]]
            && n.reg.matchers.Keys == s.reg.matchers.Keys
            && (m in s.reg.matchers ==>
                  n.reg.matchers[m] == if s.reg.matchers[m].state == Candidate && m <= c
                                       then s.reg.matchers[m].(state := Promoting) else s.reg.matchers[m])
  {
    PromotePicks(s.reg, step.reachable);
    PromoteTakes(s.reg, step.reachable);
    assert c in Candidates(s.reg) && Promote(s.reg, step.reachable).1 == Some(c);
    assert step.w !in s.reg.requests && [] + [step.client] == [step.client];
  }

  /** When no candidate can be reached, all of them are used up for nothing. */
  lemma JoinNamesNobody(s: Sys, step: Step, m: Id)
    requires Inv(s) && step.DoJoin? && Honest(s, step) && step.w !in s.reg.origins
    requires forall c :: !IsChosen(s.reg, step.reachable, c)
    ensures var n := Apply(s.reg, step);
            && n.outs == [] && n.reg.origins == s.reg.origins && n.reg.requests == s.reg.requests
            && n.reg.matchers.Keys == s.reg.matchers.Keys
            && (m in s.reg.matchers ==>
                  n.reg.matchers[m] == if s.reg.matchers[m].state == Candidate
                                       then s.reg.matchers[m].(state := Promoting) else s.reg.matchers[m])
  {
    PromotePicks(s.reg, step.reachable);
    PromoteTakes(s.reg, step.reachable);
    var c := Promote(s.reg, step.reachable).1;
    assert c.Some? ==> IsChosen(s.reg, step.reachable, c.value);
  }

  // ---------------------------------------------------------------- reports

  predicate Refused(s: Sys, a: Report) {
    var w, m := WorldOf(s.reg, a), a.addr.host;
    w in s.reg.origins && s.reg.origins[w] != m && (m == a.origin || m !in s.reg.matchers)
  }

  predicate Names(outs: seq<Out>) {
    exists i :: 0 <= i < |outs| && outs[i].Init?
  }

  lemma NamesEither(outs: seq<Out>, more: seq<Out>)
    ensures Names(outs + more) <==> Names(outs) || Names(more)
  {
    if i :| 0 <= i < |more| && more[i].Init? {
      assert (outs + more)[|outs| + i].Init?;
    }
    if i :| 0 <= i < |outs| && outs[i].Init? {
      assert (outs + more)[i].Init?;
    }
  }

  lemma RefusedWhen(s: Sys, r: Registry, w: World, m: Id, a: Report, now: Time)
    requires Inv(s) && Inv(s.(reg := r)) && Trusted(s, w, m, m == a.origin) && a.addr.host == m && a.from == m
    requires m in r.matchers || w !in r.origins
    ensures var outs := Settle(Refresh(r, w, m, a, now), w, m, a).outs;
            if m == a.origin && w in r.origins && r.origins[w] != m then outs == [Init(w, r.origins[w], m)]
            else !Names(outs)
  {
    if m != a.origin {
      RegularIs(r, w, m, a, now);
    } else if m in r.matchers && r.matchers[m].state !in {Promoting, Origin} && w in r.origins {
      RefusalIs(r, w, m, a, now);
    } else {
      GrantIs(r, w, m, a, now);
    }
  }

  /** A report is answered by the name of the world's origin exactly when that is
      another matcher and the reporter claims to be it or is not on record. */
  lemma RefusedIff(s: Sys, step: Step)
    requires Inv(s) && Honest(s, step) && step.DoAlive?
    ensures var a, outs := step.report, Apply(s.reg, step).outs;
            var w := WorldOf(s.reg, a);
            && (Names(outs) <==> Refused(s, a))
            && (Names(outs) ==> outs == Reply(s.reg, a).outs + [Init(w, s.reg.origins[w], a.addr.host)])
  {
    var a := step.report;
    var w, m := WorldOf(s.reg, a), a.addr.host;
    if w != 0 {
      ReplyKeepsInv(s, a);
      var replied := Reply(s.reg, a);
      var r := replied.reg;
      if m in r.matchers || w !in r.origins {
        RefusedWhen(s, r, w, m, a, step.now);
        NamesEither(replied.outs, Settle(Refresh(r, w, m, a, step.now), w, m, a).outs);
      } else {
        NamesEither(replied.outs, [Init(w, r.origins[w], m)]);
        assert [Init(w, r.origins[w], m)][0].Init?;
      }
    }
  }

  /** A matcher becomes, or stays, a confirmed origin by a report exactly when it
      claims a world that has no other origin. */
  lemma GrantedIff(s: Sys, step: Step)
    requires Inv(s) && Honest(s, step) && step.DoAlive? && WorldOf(s.reg, step.report) != 0
    ensures var a, r := step.report, Apply(s.reg, step).reg;
            var w, m := WorldOf(s.reg, a), a.addr.host;
            m == a.origin && (w in s.reg.origins ==> s.reg.origins[w] == m) <==>
            m == a.origin && w in r.origins && r.origins[w] == m && Confirmed(r, w)
  {
    var a := step.report;
    var w, m := WorldOf(s.reg, a), a.addr.host;
    ReplyKeepsInv(s, a);
    var r := Reply(s.reg, a).reg;
    if m == a.origin {
      if m in r.matchers && r.matchers[m].state !in {Promoting, Origin} && w in r.origins {
        RefusalIs(r, w, m, a, step.now);
      } else if m in r.matchers || w !in r.origins {
        GrantIs(r, w, m, a, step.now);
      }
    }
  }

  /** A regular report makes a candidate, an origin being promoted or an unknown
      matcher of a world without an origin a regular matcher; everyone else on
      record stays what it was. */
  lemma RegularOutcome(s: Sys, step: Step, m: Id)
    requires Inv(s) && Honest(s, step) && step.DoAlive? && WorldOf(s.reg, step.report) != 0
    requires step.report.addr.host != step.report.origin && m in s.reg.matchers + map[step.report.addr.host := BLANK]
    ensures var a, r := step.report, Apply(s.reg, step).reg;
            var w := WorldOf(s.reg, a);
            && (m in r.matchers <==> m in s.reg.matchers || w !in s.reg.origins)
            && (m in r.matchers ==>
                  r.matchers[m].state ==
                  if m !in s.reg.matchers then Active
                  else if m == a.addr.host && s.reg.matchers[m].state in {Candidate, Promoting} then Active
                  else s.reg.matchers[m].state)
  {
    var a := step.report;
    ReplyKeepsInv(s, a);
    RegularIs(Reply(s.reg, a).reg, WorldOf(s.reg, a), a.addr.host, a, step.now);
  }

  /** Whoever asks is told the world and the address on record for the origin it
      names, first of all; nobody else is. */
  lemma AskersAreTold(s: Sys, step: Step)
    requires Inv(s) && Honest(s, step) && step.DoAlive?
    ensures var a, outs := step.report, Apply(s.reg, step).outs;
            var w := WorldOf(s.reg, a);
            && (w != 0 && a.wantsReply ==>
                  |outs| > 0 &&
                  var addr := if a.origin in s.reg.matchers then s.reg.matchers[a.origin].addr else Addr(0, 0);
                  outs[0] == WorldInfo(w, addr, a.addr.host))
            && (forall i :: 0 <= i < |outs| && outs[i].WorldInfo? ==> i == 0 && w != 0 && a.wantsReply)
  {
    var a := step.report;
    var w, m := WorldOf(s.reg, a), a.addr.host;
    if w != 0 {
      var r := Reply(s.reg, a).reg;
      if m in r.matchers || w !in r.origins {
        assert forall i :: 0 <= i < |Settle(Refresh(r, w, m, a, step.now), w, m, a).outs| ==>
            !Settle(Refresh(r, w, m, a, step.now), w, m, a).outs[i].WorldInfo?;
      }
    }
  }

  // ---------------------------------------------------------------- records

  datatype Written = Written(world: World, addr: Addr, time: Time)

  // What a step writes into the record of matcher m, if m is on record after it.
  function Writes(s: Sys, step: Step, m: Id): Option<Written> {
    match step
    case DoRegister(addr, now) =>
      if addr.host == m && m !in s.reg.matchers then Some(Written(0, addr, now)) else None
    case DoAlive(a, now) =>
      var w := WorldOf(s.reg, a);
      if w == 0 then None
      else if a.addr.host == m then Some(Written(w, a.addr, now))
      else if a.wantsReply && a.origin == m && m !in s.reg.matchers then Some(Written(0, Addr(0, 0), 0))
      else None
    case _ => None
  }

  ghost predicate Holds(i: Info, w: Written) {
    i.world == w.world && i.addr == w.addr && i.time == w.time
  }

  ghost predicate WrittenBy(s: Sys, step: Step, next: Registry, m: Id) {
    m in next.matchers ==>
      if Writes(s, step, m).Some? then Holds(next.matchers[m], Writes(s, step, m).value)
      else m in s.reg.matchers && Holds(next.matchers[m], Written(s.reg.matchers[m].world, s.reg.matchers[m].addr,
                                                                  s.reg.matchers[m].time))
  }

  lemma ReportWrites(s: Sys, step: Step, m: Id)
    requires Inv(s) && Honest(s, step) && step.DoAlive?
    ensures WrittenBy(s, step, Apply(s.reg, step).reg, m)
  {
    var a := step.report;
    var w, k := WorldOf(s.reg, a), a.addr.host;
    if w != 0 {
      ReplyKeepsInv(s, a);
      var r := Reply(s.reg, a).reg;
      if k in r.matchers || w !in r.origins {
        if k != a.origin {
          RegularIs(r, w, k, a, step.now);
        } else if k in r.matchers && r.matchers[k].state !in {Promoting, Origin} && w in r.origins {
          RefusalIs(r, w, k, a, step.now);
        } else {
          GrantIs(r, w, k, a, step.now);
        }
      }
    }
  }

  lemma DepartureWrites(s: Sys, gone: Id, m: Id)
    requires Inv(s)
    ensures WrittenBy(s, DoDisconnect(gone), Disconnect(s.reg, gone).reg, m)
  {
  }

  lemma StepWrites(s: Sys, step: Step, m: Id)
    requires Inv(s) && Honest(s, step)
    ensures WrittenBy(s, step, Apply(s.reg, step).reg, m)
  {
    match step
    case DoRegister(_, _) =>
    case DoAlive(_, _) => ReportWrites(s, step, m);
    case DoJoin(reachable, v, _) => if v !in s.reg.origins { PromoteTakes(s.reg, reachable); }
    case DoDisconnect(gone) => DepartureWrites(s, gone, m);
    case DoSweep(now, limit) => SweepIs(s.reg, now, limit);
  }

  // Step k wrote m's record, and nothing has done so since.
  ghost predicate LastWrite(ss: seq<Sys>, steps: seq<Step>, m: Id, k: nat, n: nat)
    requires |ss| == |steps| + 1 && n <= |steps|
  {
    && k < n && Writes(ss[k], steps[k], m).Some?
    && (forall i :: k < i < n ==> Writes(ss[i], steps[i], m).None?)
    && forall i :: k < i <= n ==> m in ss[i].reg.matchers
  }

  lemma LastWriteHolds(ss: seq<Sys>, steps: seq<Step>, m: Id, k: nat, n: nat)
    requires Runs(ss, steps) && n <= |steps| && LastWrite(ss, steps, m, k, n)
    ensures Holds(ss[n].reg.matchers[m], Writes(ss[k], steps[k], m).value)
    decreases n
  {
    RunKeepsInv(ss, steps, n - 1);
    StepWrites(ss[n - 1], steps[n - 1], m);
    if k < n - 1 {
      LastWriteHolds(ss, steps, m, k, n - 1);
    }
  }

  // Every matcher on record has been written.
  lemma {:induction false} SomeLastWrite(ss: seq<Sys>, steps: seq<Step>, m: Id, n: nat) returns (k: nat)
    requires Runs(ss, steps) && n <= |steps| && m in ss[n].reg.matchers
    ensures LastWrite(ss, steps, m, k, n)
  {
    RunKeepsInv(ss, steps, n - 1);
    StepWrites(ss[n - 1], steps[n - 1], m);
    if Writes(ss[n - 1], steps[n - 1], m).Some? {
      k := n - 1;
    } else {
      k := SomeLastWrite(ss, steps, m, n - 1);
    }
  }

  /** Over every run, a sweep removes a matcher exactly when it is a regular one
      and its last report is older than the limit. */
  lemma SweptIff(ss: seq<Sys>, steps: seq<Step>, m: Id, n: nat)
    requires Runs(ss, steps) && n < |steps| && steps[n].DoSweep? && m in ss[n].reg.matchers
    ensures exists k: nat :: LastWrite(ss, steps, m, k, n)
    ensures forall k: nat :: LastWrite(ss, steps, m, k, n) ==>
              (m !in ss[n + 1].reg.matchers <==>
                 && ss[n].reg.matchers[m].state == Active
                 && Writes(ss[k], steps[k], m).value.time + steps[n].limit < steps[n].now)
  {
    var k := SomeLastWrite(ss, steps, m, n);
    RunKeepsInv(ss, steps, n);
    SweepIs(ss[n].reg, steps[n].now, steps[n].limit);
    forall k: nat | LastWrite(ss, steps, m, k, n)
      ensures Holds(ss[n].reg.matchers[m], Writes(ss[k], steps[k], m).value)
    {
      LastWriteHolds(ss, steps, m, k, n);
    }
  }

  /** Over every run, a client that joins a world with a confirmed origin is told
      at once, and alone, the address in that origin's last report, which was
      about that world. */
  lemma JoinTellsAddress(ss: seq<Sys>, steps: seq<Step>, n: nat) returns (k: nat)
    requires Runs(ss, steps) && n < |steps| && steps[n].DoJoin? && Confirmed(ss[n].reg, steps[n].w)
    ensures LastWrite(ss, steps, ss[n].reg.origins[steps[n].w], k, n) && steps[k].DoAlive?
    ensures var w, a := steps[n].w, steps[k].report;
            && a.addr.host == ss[n].reg.origins[w] && WorldOf(ss[k].reg, a) == w
            && Apply(ss[n].reg, steps[n]) == Result(ss[n].reg, [Notify(w, a.addr, [steps[n].client])])
  {
    var m := ss[n].reg.origins[steps[n].w];
    RunKeepsInv(ss, steps, n);
    k := SomeLastWrite(ss, steps, m, n);
    LastWriteHolds(ss, steps, m, k, n);
  }
}
