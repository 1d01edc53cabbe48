/** The bandwidth-limited sender over whole runs: connections come and go,
    messages are taken in, and rounds send them out. */
module SchedulerRuns {
  import opened OrderedKeys
  import opened Scheduler

  // The connections, every destination's line, and the time of the last message.
  datatype Sender = Sender(conns: set<Id>, lines: map<Id, Line>, clock: nat)

  const START := Sender({}, map[], 0)

  function LineOf(lines: map<Id, Line>, d: Id): Line {
    if d in lines then lines[d] else IDLE
  }

  // A queue that is thrown away takes its account with it.
  function Clean(lines: map<Id, Line>, d: Id): map<Id, Line> {
    if LineOf(lines, d).queue != [] then lines - {d} else lines
  }

  function Send(s: Sender, d: Id, m: Msg): Sender {
    if d in s.conns then Sender(s.conns, s.lines[d := Accept(LineOf(s.lines, d), m)], m.time) else s
  }

  // disconnect () returns as soon as the connection has been cut, so it reaches
  // the clean-up only when there was none to cut.
  function Disconnect(s: Sender, d: Id, peer: bool): Sender {
    if d in s.conns && peer then s.(conns := s.conns - {d}) else s.(lines := Clean(s.lines, d))
  }

  function RemoteDisconnect(s: Sender, d: Id): Sender {
    Sender(s.conns - {d}, Clean(s.lines, d), s.clock)
  }

  function Queued(s: Sender): set<Id> {
    set d | d in s.lines && s.lines[d].queue != []
  }

  // Each destination's share of the cap, as a 32-bit number.
  function Share(s: Sender, cap: nat): nat
    requires s.conns != {} && Queued(s) != {}
  {
    (cap / Min(|s.conns|, |Queued(s)|)) % UINT32
  }

  function PlanOf(s: Sender, cap: nat): Plan
    requires s.conns != {} && Queued(s) != {}
  {
    Plan(s.conns, cap, Share(s, cap), Ascending(Queued(s)))
  }

  function RoundOf(s: Sender): Round {
    Round(s.lines, 0, 0, false, false)
  }

  // A line's messages were all sent by the given time.
  ghost predicate SentBy(l: Line, clock: nat) {
    forall i :: 0 <= i < |l.queue| ==> l.queue[i].time <= clock
  }

  ghost predicate Timely(lines: map<Id, Line>, clock: nat) {
    forall d :: d in lines ==> SentBy(lines[d], clock)
  }

  ghost predicate Inv(s: Sender) {
    AllFine(s.lines) && Timely(s.lines, s.clock)
  }

  lemma ShareIsWithinCap(s: Sender, cap: nat)
    requires s.conns != {} && Queued(s) != {}
    ensures Share(s, cap) <= cap
  {
    var n := Min(|s.conns|, |Queued(s)|);
    assert n >= 1;
    DivideShrinks(cap, n);
    assert (cap / n) % UINT32 <= cap / n;
  }

  lemma DivideShrinks(a: nat, n: nat)
    requires n >= 1
    ensures a / n <= a
  {
  }

  lemma RoundIsReady(s: Sender, cap: nat)
    requires Inv(s) && s.conns != {} && Queued(s) != {} && Share(s, cap) > 0
    ensures Ready(RoundOf(s), PlanOf(s, cap))
  {
    ShareIsWithinCap(s, cap);
    var keys := Ascending(Queued(s));
    forall i | 0 <= i < |keys|
      ensures keys[i] in s.lines && s.lines[keys[i]].queue != []
    {
      assert keys[i] in keys;
    }
  }

  datatype Step =
    | DoConnect(d: Id)
    | DoDisconnect(d: Id, peer: bool)
    | DoRemoteDisconnect(d: Id)
    | DoSend(d: Id, m: Msg)
    | DoClear(cap: nat)

  // A round that ends, with the destinations' lines as it leaves them.  There is
  // none when the cap would be divided among no connections, or the round never
  // ends.
  ghost predicate Cleared(s: Sender, cap: nat, t: Sender) {
    if Queued(s) == {} then t == s
    else if s.conns == {} then false
    else if Share(s, cap) == 0 then t == s
    else
      var r, p := RoundOf(s), PlanOf(s, cap);
      Ready(r, p) && exists k: nat :: EndsAt(r, p, k) && t == s.(lines := Walk(r, p, k).lines)
  }

  ghost predicate Next(s: Sender, step: Step, t: Sender) {
    match step
    case DoConnect(d) => t == s.(conns := s.conns + {d})
    case DoDisconnect(d, peer) => t == Disconnect(s, d, peer)
    case DoRemoteDisconnect(d) => t == RemoteDisconnect(s, d)
    case DoSend(d, m) => m.time >= s.clock && t == Send(s, d, m)
    case DoClear(cap) => Cleared(s, cap, t)
  }

  // ---------------------------------------------------------------- accounts

  // A message no older than those queued goes to the end.
  lemma AcceptKeepsLine(l: Line, clock: nat, m: Msg)
    requires LineFine(l) && SentBy(l, clock) && clock <= m.time
    ensures LineFine(Accept(l, m)) && SentBy(Accept(l, m), m.time)
  {
    assert Append(l.queue, m) == l.queue + [m];
    assert l.delivered + (l.queue + [m]) == (l.delivered + l.queue) + [m];
  }

  lemma PutKeepsFine(lines: map<Id, Line>, d: Id, l: Line, clock: nat, now: nat)
    requires AllFine(lines) && Timely(lines, clock) && clock <= now
    requires LineFine(l) && SentBy(l, now)
    ensures AllFine(lines[d := l]) && Timely(lines[d := l], now)
  {
    var n := lines[d := l];
    forall e | e in n
      ensures LineFine(n[e]) && SentBy(n[e], now)
    {
      if e != d {
        assert LineFine(lines[e]) && SentBy(lines[e], clock);
      }
    }
  }

  lemma SendKeepsInv(s: Sender, d: Id, m: Msg)
    requires Inv(s) && m.time >= s.clock
    ensures Inv(Send(s, d, m))
  {
    if d in s.conns {
      var l := LineOf(s.lines, d);
      AcceptKeepsLine(l, s.clock, m);
      PutKeepsFine(s.lines, d, Accept(l, m), s.clock, m.time);
    }
  }

  lemma CleanKeepsInv(s: Sender, d: Id)
    requires Inv(s)
    ensures Inv(s.(lines := Clean(s.lines, d)))
  {
  }

  lemma {:induction false} WalkKeepsTimes(r: Round, p: Plan, k: nat, clock: nat)
    requires RoundFine(r, p) && Timely(r.lines, clock)
    ensures Timely(Walk(r, p, k).lines, clock)
  {
    if k > 0 {
      WalkKeepsTimes(r, p, k - 1, clock);
    }
  }

  lemma StepKeepsInv(s: Sender, step: Step, t: Sender)
    requires Inv(s) && Next(s, step, t)
    ensures Inv(t)
  {
    match step
    case DoSend(d, m) => SendKeepsInv(s, d, m);
    case DoClear(cap) => {
      if t != s {
        var r, p := RoundOf(s), PlanOf(s, cap);
        var k: nat :| EndsAt(r, p, k) && t == s.(lines := Walk(r, p, k).lines);
        WalkKeepsLines(r, p, k);
        WalkKeepsTimes(r, p, k, s.clock);
      }
    }
    case _ =>
  }

  ghost predicate Runs(ss: seq<Sender>, steps: seq<Step>) {
    && |ss| == |steps| + 1 && ss[0] == START
    && forall i :: 0 <= i < |steps| ==> Next(ss[i], steps[i], ss[i + 1])
  }

  lemma {:induction false} RunKeepsInv(ss: seq<Sender>, steps: seq<Step>, n: nat)
    requires Runs(ss, steps) && n < |ss|
    ensures Inv(ss[n])
  {
    if n > 0 {
      RunKeepsInv(ss, steps, n - 1);
      StepKeepsInv(ss[n - 1], steps[n - 1], ss[n]);
    }
  }

  /** Over all rounds: the bytes charged to a destination are those of the
      messages delivered to it and the part of the next one already paid for,
      which is less than that message; and what it was given it gets, in order. */
  lemma AccountsBalance(ss: seq<Sender>, steps: seq<Step>, n: nat, d: Id)
    requires Runs(ss, steps) && n < |ss| && d in ss[n].lines
    ensures var l := ss[n].lines[d];
            && l.charged == Bytes(l.delivered) + l.space
            && (l.space > 0 ==> l.queue != [] && l.space < l.queue[0].size)
            && l.delivered + l.queue == l.accepted
  {
    RunKeepsInv(ss, steps, n);
  }

  // ---------------------------------------------------------------- do rounds end?

  // No queue is left over from a connection cut from this side.
  ghost predicate NothingLeftOver(s: Sender) {
    forall d :: d in Queued(s) ==> d in s.conns
  }

  ghost predicate LocalCut(s: Sender, step: Step) {
    step.DoDisconnect? && step.peer && step.d in s.conns && step.d in Queued(s)
  }

  lemma {:induction false} WalkAddsNoQueue(r: Round, p: Plan, k: nat, d: Id)
    requires RoundFine(r, p) && LineOf(r.lines, d).queue == []
    ensures LineOf(Walk(r, p, k).lines, d).queue == []
  {
    if k > 0 {
      WalkAddsNoQueue(r, p, k - 1, d);
    }
  }

  lemma ClearAddsNoQueue(s: Sender, cap: nat, t: Sender)
    requires Inv(s) && Cleared(s, cap, t)
    ensures Queued(t) <= Queued(s) && t.conns == s.conns
  {
    if t != s {
      var r, p := RoundOf(s), PlanOf(s, cap);
      var k: nat :| EndsAt(r, p, k) && t == s.(lines := Walk(r, p, k).lines);
      forall d | d in Queued(t)
        ensures d in Queued(s)
      {
        if LineOf(s.lines, d).queue == [] {
          WalkAddsNoQueue(r, p, k, d);
        }
      }
    }
  }

  /** A step leaves queues over exactly when it cuts a connection from this side
      with messages still queued for it. */
  lemma LeftOverIff(s: Sender, step: Step, t: Sender)
    requires Inv(s) && Next(s, step, t) && NothingLeftOver(s)
    ensures NothingLeftOver(t) <==> !LocalCut(s, step)
  {
    match step
    case DoClear(cap) => ClearAddsNoQueue(s, cap, t);
    case DoDisconnect(d, peer) => {
      if LocalCut(s, step) {
        assert d in Queued(t) && d !in t.conns;
      } else {
        assert forall e :: e in Queued(t) ==> e in Queued(s) && (d in s.conns && peer ==> e != d);
      }
    }
    case DoRemoteDisconnect(d) => assert forall e :: e in Queued(t) ==> e in Queued(s) && e != d;
    case DoSend(d, m) => assert forall e :: e in Queued(t) ==> e in Queued(s) || (e == d && d in s.conns);
    case DoConnect(_) => assert Queued(t) == Queued(s);
  }

  /** A round can be run and ends if and only if nothing is queued, or there are
      connections to share the cap among and either their share is nothing or the
      queued destinations let the round end. */
  lemma RoundRunsIff(s: Sender, cap: nat)
    requires Inv(s)
    ensures (exists t :: Cleared(s, cap, t)) <==>
            || Queued(s) == {}
            || (s.conns != {} && (Share(s, cap) == 0 || CanEnd(RoundOf(s), PlanOf(s, cap))))
  {
    if Queued(s) == {} || (s.conns != {} && Share(s, cap) == 0) {
      assert Cleared(s, cap, s);
    } else if s.conns != {} {
      var r, p := RoundOf(s), PlanOf(s, cap);
      RoundIsReady(s, cap);
      RoundEndsIff(r, p);
      if CanEnd(r, p) {
        var k: nat :| EndsAt(r, p, k);
        assert Cleared(s, cap, s.(lines := Walk(r, p, k).lines));
      }
    }
  }

  /** As long as no such cut has happened, a round can always be run and ends. */
  lemma RoundsEnd(s: Sender, cap: nat)
    requires Inv(s) && NothingLeftOver(s)
    ensures exists t :: Cleared(s, cap, t)
  {
    if Queued(s) == {} {
      assert Cleared(s, cap, s);
    } else {
      var d :| d in Queued(s);
      assert d in s.conns;
      if Share(s, cap) == 0 {
        assert Cleared(s, cap, s);
      } else {
        RoundIsReady(s, cap);
        var r, p := RoundOf(s), PlanOf(s, cap);
        forall i | 0 <= i < |p.keys|
          ensures p.keys[i] in p.live
        {
          assert p.keys[i] in p.keys;
        }
        var k := RoundEnds(r, p);
        assert Cleared(s, cap, s.(lines := Walk(r, p, k).lines));
      }
    }
  }

  ghost predicate NoCuts(ss: seq<Sender>, steps: seq<Step>, n: nat)
    requires |steps| <= |ss| && n <= |steps|
  {
    forall i :: 0 <= i < n ==> !LocalCut(ss[i], steps[i])
  }

  lemma {:induction false} NoCutsNothingLeftOver(ss: seq<Sender>, steps: seq<Step>, n: nat)
    requires Runs(ss, steps) && n < |ss| && NoCuts(ss, steps, n)
    ensures NothingLeftOver(ss[n])
  {
    if n > 0 {
      NoCutsNothingLeftOver(ss, steps, n - 1);
      RunKeepsInv(ss, steps, n - 1);
      var s, step, t := ss[n - 1], steps[n - 1], ss[n];
      assert Next(s, step, t) && !LocalCut(s, step);
      LeftOverIff(s, step, t);
    }
  }

  /** After one, a round with bandwidth to spare never ends. */
  lemma LeftOverSpins(s: Sender, cap: nat)
    requires Inv(s) && !NothingLeftOver(s) && s.conns != {} && Share(s, cap) > 0
    requires Owing(s.lines, PlanOf(s, cap), |Queued(s)|) + MIN_BLOCK <= cap
    ensures !exists t :: Cleared(s, cap, t)
  {
    var r, p := RoundOf(s), PlanOf(s, cap);
    RoundIsReady(s, cap);
    var d :| d in Queued(s) && d !in s.conns;
    assert d in p.keys;
    var i :| 0 <= i < |p.keys| && p.keys[i] == d;
    assert p.keys[i] !in p.live;
    RoundEndsIff(r, p);
  }
}
