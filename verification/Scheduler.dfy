/** The bandwidth-limited sender (VASTnet/net_emu_bl.cpp): one queue a
    destination, served in turn within a byte quota. */
module Scheduler {
  type Id = nat

  const MIN_BLOCK := 32
  const UINT32 := 0x1_0000_0000

  // A queued message: its size, when it was sent, and what it says.
  datatype Msg = Msg(size: nat, time: nat, body: nat)

  // All there is to one destination.  `charged`, `delivered` and `accepted` are
  // history: the bytes spent on it, and the messages gone out and taken in.
  datatype Line = Line(queue: seq<Msg>, space: nat, charged: nat, delivered: seq<Msg>, accepted: seq<Msg>)

  const IDLE := Line([], 0, 0, [], [])

  function Bytes(ms: seq<Msg>): nat {
    if ms == [] then 0 else Bytes(ms[..|ms| - 1]) + ms[|ms| - 1].size
  }

  lemma {:induction false} BytesJoin(a: seq<Msg>, b: seq<Msg>)
    ensures Bytes(a + b) == Bytes(a) + Bytes(b)
  {
    if b == [] {
      assert a + b == a;
    } else {
      assert (a + b)[..|a + b| - 1] == a + b[..|b| - 1];
      BytesJoin(a, b[..|b| - 1]);
    }
  }

  // Bytes are accounted for, messages go out in order, and the part of the
  // first message already paid for is less than all of it.
  ghost predicate LineFine(l: Line) {
    && l.accepted == l.delivered + l.queue
    && l.charged == Bytes(l.delivered) + l.space
    && (l.space == 0 || (l.queue != [] && l.space < l.queue[0].size))
  }

  // Messages are kept in time order, behind those of the same time; the first
  // one is never overtaken.
  function Append(queue: seq<Msg>, m: Msg): (r: seq<Msg>)
    ensures |r| == |queue| + 1
  {
    if |queue| <= 1 || queue[|queue| - 1].time <= m.time then queue + [m]
    else Append(queue[..|queue| - 1], m) + [queue[|queue| - 1]]
  }

  function Accept(l: Line, m: Msg): Line {
    l.(queue := Append(l.queue, m), accepted := l.accepted + [m])
  }

  function Min(a: nat, b: nat): nat {
    if a <= b then a else b
  }

  // One visit to a destination with a message waiting: the message goes out if
  // the rest of it can be paid for, and else as much as possible is paid.  (The
  // difference is unsigned: if more than the message had been paid, the rest of
  // it would be huge.)
  function Serve(l: Line, quota: nat): (s: (Line, nat))
    requires l.queue != []
    ensures s.1 <= quota
  {
    var due := l.queue[0].size - l.space;
    if 0 <= due <= quota then
      (Line(l.queue[1..], 0, l.charged + due, l.delivered + [l.queue[0]], l.accepted), due)
    else
      (l.(space := l.space + quota, charged := l.charged + quota), quota)
  }

  lemma ServeKeepsFine(l: Line, quota: nat)
    requires LineFine(l) && l.queue != []
    ensures LineFine(Serve(l, quota).0)
  {
    var s := Serve(l, quota).0;
    BytesJoin(l.delivered, [l.queue[0]]);
    assert Bytes([l.queue[0]]) == l.queue[0].size by {
      assert [l.queue[0]][..0] == [];
    }
    assert l.queue == [l.queue[0]] + l.queue[1..];
    assert l.delivered + l.queue == (l.delivered + [l.queue[0]]) + l.queue[1..];
  }

  // ---------------------------------------------------------------- a round

  // A round in progress: the destination to visit next, bytes charged so far,
  // whether any destination has been served yet, and whether the bandwidth is
  // used up.
  datatype Round = Round(lines: map<Id, Line>, at: nat, total: nat, moved: bool, stop: bool)

  // What a round is about: the connections, the upload cap, each destination's
  // share, and the destinations in the order they are visited.
  datatype Plan = Plan(live: set<Id>, cap: nat, quota: nat, keys: seq<Id>)

  predicate Active(lines: map<Id, Line>, p: Plan, d: Id) {
    d in p.live && d in lines && lines[d].queue != []
  }

  ghost predicate RoundFine(r: Round, p: Plan) {
    && r.at < |p.keys| && r.total <= p.cap
    && (if r.moved then r.stop == (p.cap - r.total < MIN_BLOCK) else r.total == 0 && !r.stop)
  }

  // The iterator goes back to the front at the end.
  function After(i: nat, n: nat): nat {
    if i + 1 == n then 0 else i + 1
  }

  function Visit(r: Round, p: Plan): Round
    requires RoundFine(r, p)
  {
    var d := p.keys[r.at];
    if !Active(r.lines, p, d) then r.(at := After(r.at, |p.keys|))
    else
      var (l, cost) := Serve(r.lines[d], Min(p.quota, p.cap - r.total));
      Round(r.lines[d := l], After(r.at, |p.keys|), r.total + cost, true, p.cap - (r.total + cost) < MIN_BLOCK)
  }

  lemma VisitKeepsFine(r: Round, p: Plan)
    requires RoundFine(r, p)
    ensures RoundFine(Visit(r, p), p)
  {
  }

  // After k visits.
  function Walk(r: Round, p: Plan, k: nat): (w: Round)
    requires RoundFine(r, p)
    ensures RoundFine(w, p)
  {
    if k == 0 then r
    else
      var before := Walk(r, p, k - 1);
      VisitKeepsFine(before, p);
      Visit(before, p)
  }

  ghost predicate AllFine(lines: map<Id, Line>) {
    forall d :: d in lines ==> LineFine(lines[d])
  }

  lemma VisitKeepsLines(r: Round, p: Plan)
    requires RoundFine(r, p) && AllFine(r.lines)
    ensures AllFine(Visit(r, p).lines)
  {
    var d := p.keys[r.at];
    if Active(r.lines, p, d) {
      ServeKeepsFine(r.lines[d], Min(p.quota, p.cap - r.total));
    }
  }

  lemma {:induction false} WalkKeepsLines(r: Round, p: Plan, k: nat)
    requires RoundFine(r, p) && AllFine(r.lines)
    ensures AllFine(Walk(r, p, k).lines)
  {
    if k > 0 {
      WalkKeepsLines(r, p, k - 1);
      VisitKeepsLines(Walk(r, p, k - 1), p);
    }
  }

  // A round is over when the bandwidth is used up or every queue is empty.
  predicate Over(r: Round, p: Plan) {
    r.stop || forall i :: 0 <= i < |p.keys| && p.keys[i] in r.lines ==> r.lines[p.keys[i]].queue == []
  }

  ghost predicate EndsAt(r: Round, p: Plan, k: nat)
    requires RoundFine(r, p)
  {
    Over(Walk(r, p, k), p) && forall j :: 0 <= j < k ==> !Over(Walk(r, p, j), p)
  }

  // ---------------------------------------------------------------- what a round charges

  function Owed(l: Line): int {
    Bytes(l.queue) - l.space
  }

  lemma OwedIsPositive(l: Line)
    requires LineFine(l)
    ensures Owed(l) >= 0
    ensures l.queue == [] ==> Owed(l) == 0
  {
    if l.queue != [] {
      BytesJoin([l.queue[0]], l.queue[1..]);
      assert l.queue == [l.queue[0]] + l.queue[1..];
      assert [l.queue[0]][..0] == [];
    }
  }

  // Over the first n destinations: the bytes still owed to connected ones, the
  // messages waiting for them, and the bytes ever charged to any.
  function Owing(lines: map<Id, Line>, p: Plan, n: nat): int
    requires n <= |p.keys|
  {
    if n == 0 then 0
    else Owing(lines, p, n - 1) + if Active(lines, p, p.keys[n - 1]) then Owed(lines[p.keys[n - 1]]) else 0
  }

  function Pending(lines: map<Id, Line>, p: Plan, n: nat): nat
    requires n <= |p.keys|
  {
    if n == 0 then 0
    else Pending(lines, p, n - 1) + if Active(lines, p, p.keys[n - 1]) then |lines[p.keys[n - 1]].queue| else 0
  }

  function Billed(lines: map<Id, Line>, p: Plan, n: nat): nat
    requires n <= |p.keys|
  {
    if n == 0 then 0
    else Billed(lines, p, n - 1) + if p.keys[n - 1] in lines then lines[p.keys[n - 1]].charged else 0
  }

  ghost predicate Distinct(keys: seq<Id>) {
    forall i, j :: 0 <= i < j < |keys| ==> keys[i] != keys[j]
  }

  lemma ServeMoves(l: Line, quota: nat)
    requires l.queue != []
    ensures var (s, cost) := Serve(l, quota);
            && Owed(s) == Owed(l) - cost && (s.queue == [] ==> s.space == 0) && s.charged == l.charged + cost
            && (|s.queue| == |l.queue| - 1 || (s.queue == l.queue && cost == quota))
  {
    BytesJoin([l.queue[0]], l.queue[1..]);
    assert l.queue == [l.queue[0]] + l.queue[1..];
    assert [l.queue[0]][..0] == [];
  }

  // Changing destination j's line moves its own share of each sum.
  lemma {:induction false} OwingMoves(lines: map<Id, Line>, p: Plan, j: nat, l: Line, n: nat)
    requires Distinct(p.keys) && j < |p.keys| && n <= |p.keys|
    requires Active(lines, p, p.keys[j]) && (l.queue == [] ==> Owed(l) == 0)
    ensures Owing(lines[p.keys[j] := l], p, n) ==
            Owing(lines, p, n) + if j < n then Owed(l) - Owed(lines[p.keys[j]]) else 0
  {
    if n > 0 {
      OwingMoves(lines, p, j, l, n - 1);
    }
  }

  lemma {:induction false} PendingMoves(lines: map<Id, Line>, p: Plan, j: nat, l: Line, n: nat)
    requires Distinct(p.keys) && j < |p.keys| && n <= |p.keys|
    requires Active(lines, p, p.keys[j])
    ensures Pending(lines[p.keys[j] := l], p, n) ==
            Pending(lines, p, n) + if j < n then |l.queue| - |lines[p.keys[j]].queue| else 0
  {
    if n > 0 {
      PendingMoves(lines, p, j, l, n - 1);
    }
  }

  lemma {:induction false} BilledMoves(lines: map<Id, Line>, p: Plan, j: nat, l: Line, n: nat)
    requires Distinct(p.keys) && j < |p.keys| && n <= |p.keys|
    requires Active(lines, p, p.keys[j])
    ensures Billed(lines[p.keys[j] := l], p, n) ==
            Billed(lines, p, n) + if j < n then l.charged - lines[p.keys[j]].charged else 0
  {
    if n > 0 {
      BilledMoves(lines, p, j, l, n - 1);
    }
  }

  // A visit moves what it charges from what is owed to what is billed.
  lemma {:induction false} VisitMoves(r: Round, p: Plan)
    requires RoundFine(r, p) && Distinct(p.keys) && Active(r.lines, p, p.keys[r.at])
    ensures var v, n := Visit(r, p), |p.keys|;
            && Owing(v.lines, p, n) == Owing(r.lines, p, n) - (v.total - r.total)
            && Billed(v.lines, p, n) == Billed(r.lines, p, n) + (v.total - r.total)
  {
    var d, n := p.keys[r.at], |p.keys|;
    var quota := Min(p.quota, p.cap - r.total);
    var l := Serve(r.lines[d], quota).0;
    ServeMoves(r.lines[d], quota);
    OwingMoves(r.lines, p, r.at, l, n);
    BilledMoves(r.lines, p, r.at, l, n);
  }

  // It also sends a message or spends its whole share.
  lemma {:induction false} VisitProgresses(r: Round, p: Plan)
    requires RoundFine(r, p) && Distinct(p.keys) && Active(r.lines, p, p.keys[r.at])
    ensures var v, n := Visit(r, p), |p.keys|;
            || Pending(v.lines, p, n) == Pending(r.lines, p, n) - 1
            || (Pending(v.lines, p, n) == Pending(r.lines, p, n) && v.total - r.total == Min(p.quota, p.cap - r.total))
  {
    var d, n := p.keys[r.at], |p.keys|;
    var quota := Min(p.quota, p.cap - r.total);
    ServeMoves(r.lines[d], quota);
    PendingMoves(r.lines, p, r.at, Serve(r.lines[d], quota).0, n);
  }

  /** A round never charges more than the upload cap.  What it has charged is
      exactly what its destinations' accounts have grown by, and what the
      connected ones are owed has shrunk by. */
  lemma {:induction false} RoundIsPaidFor(r: Round, p: Plan, k: nat)
    requires RoundFine(r, p) && Distinct(p.keys) && r.total == 0
    ensures var w, n := Walk(r, p, k), |p.keys|;
            && w.total <= p.cap
            && Billed(w.lines, p, n) == Billed(r.lines, p, n) + w.total
            && Owing(w.lines, p, n) == Owing(r.lines, p, n) - w.total
  {
    if k > 0 {
      RoundIsPaidFor(r, p, k - 1);
      var before := Walk(r, p, k - 1);
      if Active(before.lines, p, p.keys[before.at]) {
        VisitMoves(before, p);
      }
    }
  }

  // ---------------------------------------------------------------- when a round ends

  lemma {:induction false} NothingActive(lines: map<Id, Line>, p: Plan, n: nat)
    requires n <= |p.keys| && forall i :: 0 <= i < n ==> !Active(lines, p, p.keys[i])
    ensures Owing(lines, p, n) == 0
  {
    if n > 0 {
      NothingActive(lines, p, n - 1);
    }
  }

  // A round that has started, with some destinations waiting to be served.
  ghost predicate Ready(r: Round, p: Plan) {
    && RoundFine(r, p) && AllFine(r.lines) && Distinct(p.keys) && r.at == 0 && !r.moved && 0 < p.quota <= p.cap
    && forall i :: 0 <= i < |p.keys| ==> p.keys[i] in r.lines && r.lines[p.keys[i]].queue != []
  }

  ghost predicate AllLive(p: Plan) {
    forall i :: 0 <= i < |p.keys| ==> p.keys[i] in p.live
  }

  ghost predicate SomeLive(p: Plan) {
    exists i :: 0 <= i < |p.keys| && p.keys[i] in p.live
  }

  /** When a round ends: either every queued destination is connected, or what
      the connected ones are owed uses the bandwidth up first. */
  ghost predicate CanEnd(r: Round, p: Plan) {
    AllLive(p) || (SomeLive(p) && Owing(r.lines, p, |p.keys|) + MIN_BLOCK > p.cap)
  }

  lemma {:induction false} DeadStays(r: Round, p: Plan, k: nat, d: Id)
    requires RoundFine(r, p) && d in r.lines && d !in p.live
    ensures d in Walk(r, p, k).lines && Walk(r, p, k).lines[d] == r.lines[d]
  {
    if k > 0 {
      DeadStays(r, p, k - 1, d);
    }
  }

  lemma {:induction false} UnmovedIsStart(r: Round, p: Plan, k: nat)
    requires RoundFine(r, p) && !Walk(r, p, k).moved
    ensures Walk(r, p, k).lines == r.lines
  {
    if k > 0 {
      UnmovedIsStart(r, p, k - 1);
    }
  }

  // While the round goes on there is always somebody to serve.
  lemma SomebodyIsActive(r: Round, p: Plan, k: nat) returns (i: nat)
    requires Ready(r, p) && CanEnd(r, p) && !Over(Walk(r, p, k), p)
    ensures i < |p.keys| && Active(Walk(r, p, k).lines, p, p.keys[i])
  {
    var w := Walk(r, p, k);
    if exists i :: 0 <= i < |p.keys| && Active(w.lines, p, p.keys[i]) {
      i :| 0 <= i < |p.keys| && Active(w.lines, p, p.keys[i]);
    } else {
      NothingActive(w.lines, p, |p.keys|);
      RoundIsPaidFor(r, p, k);
      if !w.moved {
        UnmovedIsStart(r, p, k);
      }
      assert false;
    }
  }

  function Work(w: Round, p: Plan): nat
    requires w.total <= p.cap
  {
    Pending(w.lines, p, |p.keys|) + p.cap - w.total
  }

  // How many visits away a destination is.
  function Away(at: nat, i: nat, n: nat): nat
    requires at < n && i < n
  {
    if at <= i then i - at else n - at + i
  }

  lemma ActiveVisitWorks(r: Round, p: Plan)
    requires RoundFine(r, p) && Distinct(p.keys) && Active(r.lines, p, p.keys[r.at])
    requires 0 < p.quota && r.total < p.cap
    ensures RoundFine(Visit(r, p), p) && Work(Visit(r, p), p) < Work(r, p)
  {
    VisitKeepsFine(r, p);
    VisitProgresses(r, p);
  }

  ghost predicate GoingOn(r: Round, p: Plan, k: nat)
    requires RoundFine(r, p)
  {
    forall j :: 0 <= j <= k ==> !Over(Walk(r, p, j), p)
  }

  lemma OneMoreVisit(r: Round, p: Plan, k: nat)
    requires RoundFine(r, p) && GoingOn(r, p, k)
    ensures if Over(Walk(r, p, k + 1), p) then EndsAt(r, p, k + 1) else GoingOn(r, p, k + 1)
  {
  }

  lemma Closer(at: nat, i: nat, n: nat)
    requires at < n && i < n && at != i
    ensures After(at, n) < n && Away(After(at, n), i, n) < Away(at, i, n)
  {
  }

  // From visit k, with destination i still to be served.
  lemma {:induction false} EndFrom(r: Round, p: Plan, k: nat, i: nat, w: Round) returns (end: nat)
    requires Ready(r, p) && CanEnd(r, p) && GoingOn(r, p, k) && w == Walk(r, p, k)
    requires i < |p.keys| && Active(w.lines, p, p.keys[i])
    ensures EndsAt(r, p, end)
    decreases Work(w, p), Away(w.at, i, |p.keys|)
  {
    var v := Walk(r, p, k + 1);
    OneMoreVisit(r, p, k);
    if Over(v, p) {
      return k + 1;
    }
    if Active(w.lines, p, p.keys[w.at]) {
      ActiveVisitWorks(w, p);
      var i' := SomebodyIsActive(r, p, k + 1);
      end := EndFrom(r, p, k + 1, i', v);
    } else {
      Closer(w.at, i, |p.keys|);
      end := EndFrom(r, p, k + 1, i, v);
    }
  }

  lemma ReadyIsNotOver(r: Round, p: Plan)
    requires Ready(r, p)
    ensures GoingOn(r, p, 0)
  {
    assert Walk(r, p, 0) == r;
    assert r.lines[p.keys[0]].queue != [];
  }

  /** A round ends if and only if it can: a queue left over for a destination
      that is no longer connected keeps the loop going round for ever, unless
      the bandwidth happens to be used up first. */
  lemma RoundEndsIff(r: Round, p: Plan)
    requires Ready(r, p)
    ensures CanEnd(r, p) <==> exists k: nat :: EndsAt(r, p, k)
  {
    if CanEnd(r, p) {
      var end := RoundEnds(r, p);
    }
    if exists k: nat :: EndsAt(r, p, k) {
      var k: nat :| EndsAt(r, p, k);
      EndsOnlyIf(r, p, k);
    }
  }

  lemma RoundEnds(r: Round, p: Plan) returns (end: nat)
    requires Ready(r, p) && CanEnd(r, p)
    ensures EndsAt(r, p, end)
  {
    ReadyIsNotOver(r, p);
    var i := SomebodyIsActive(r, p, 0);
    end := EndFrom(r, p, 0, i, r);
  }

  lemma {:induction false} EndsOnlyIf(r: Round, p: Plan, k: nat)
    requires Ready(r, p) && Over(Walk(r, p, k), p)
    ensures CanEnd(r, p)
  {
    var w := Walk(r, p, k);
    if !AllLive(p) {
      var i :| 0 <= i < |p.keys| && p.keys[i] !in p.live;
      DeadStays(r, p, k, p.keys[i]);
      assert w.stop;
      RoundIsPaidFor(r, p, k);
      WalkKeepsLines(r, p, k);
      OwingIsPositive(w, p, |p.keys|);
      if !SomeLive(p) {
        NobodyServed(r, p, k);
      }
    }
  }

  lemma {:induction false} OwingIsPositive(w: Round, p: Plan, n: nat)
    requires AllFine(w.lines) && n <= |p.keys|
    ensures Owing(w.lines, p, n) >= 0
  {
    if n > 0 {
      OwingIsPositive(w, p, n - 1);
      if Active(w.lines, p, p.keys[n - 1]) {
        OwedIsPositive(w.lines[p.keys[n - 1]]);
      }
    }
  }

  lemma {:induction false} NobodyServed(r: Round, p: Plan, k: nat)
    requires RoundFine(r, p) && !SomeLive(p)
    ensures Walk(r, p, k).stop == r.stop
  {
    if k > 0 {
      NobodyServed(r, p, k - 1);
      assert p.keys[Walk(r, p, k - 1).at] !in p.live;
    }
  }
}
