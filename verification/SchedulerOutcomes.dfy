/** What a visit, a round and each other step of the bandwidth-limited sender do
    to the destinations' queues and accounts, in bytes and messages. */
module SchedulerOutcomes {
  import opened OrderedKeys
  import opened Scheduler
  import opened SchedulerRuns

  // ---------------------------------------------------------------- shares

  lemma Quotient(a: nat, n: nat)
    requires n > 0
    ensures (a / n) * n <= a < (a / n + 1) * n
  {
  }

  lemma TimesGrows(a: nat, b: nat, n: nat)
    requires a <= b
    ensures a * n <= b * n
  {
  }

  /** The cap is shared evenly among the connections or the queued destinations,
      whichever are fewer, down to the whole byte; a share of 4 GiB or more loses
      k times 4 GiB. */
  lemma ShareIs(s: Sender, cap: nat) returns (k: nat)
    requires s.conns != {} && Queued(s) != {}
    ensures Share(s, cap) < 0x1_0000_0000
    ensures var n := if |s.conns| < |Queued(s)| then |s.conns| else |Queued(s)|;
            var share := Share(s, cap) + 0x1_0000_0000 * k;
            share * n <= cap < (share + 1) * n && (cap < 0x1_0000_0000 * n ==> k == 0)
  {
    var n := if |s.conns| < |Queued(s)| then |s.conns| else |Queued(s)|;
    Quotient(cap, n);
    var q := cap / n;
    k := q / 0x1_0000_0000;
    assert q == Share(s, cap) + 0x1_0000_0000 * k;
    if 0x1_0000_0000 <= q {
      TimesGrows(0x1_0000_0000, q, n);
    }
  }

  // ---------------------------------------------------------------- visits

  // What a visit makes of a line: `cost` bytes of the message in front are paid.
  ghost predicate Pays(l: Line, n: Line, cost: nat)
    requires l.queue != []
  {
    && n.charged == l.charged + cost && n.accepted == l.accepted
    && if l.space + cost == l.queue[0].size then
         n.queue == l.queue[1..] && n.delivered == l.delivered + [l.queue[0]] && n.space == 0
       else
         n.queue == l.queue && n.delivered == l.delivered && n.space == l.space + cost
  }

  /** A visit to a connected destination with messages pays the rest of the first
      message, the destination's share, or what is left of the cap, whichever is
      least; the message goes out exactly when it is paid in full.  The round is
      stopped when less than 32 bytes of the cap are left. */
  lemma VisitPays(r: Round, p: Plan)
    requires RoundFine(r, p) && AllFine(r.lines) && Active(r.lines, p, p.keys[r.at])
    ensures var v, d := Visit(r, p), p.keys[r.at];
            var rest, left, cost := r.lines[d].queue[0].size - r.lines[d].space, p.cap - r.total, v.total - r.total;
            && 0 <= cost <= rest && cost <= p.quota && cost <= left
            && (cost == rest || cost == p.quota || cost == left)
            && v.lines.Keys == r.lines.Keys && Pays(r.lines[d], v.lines[d], cost)
            && (forall e :: e in r.lines && e != d ==> v.lines[e] == r.lines[e])
            && v.moved && (v.stop <==> p.cap - v.total < 32)
  {
    var d := p.keys[r.at];
    assert LineFine(r.lines[d]);
  }

  /** Any other destination is passed by. */
  lemma VisitPassesBy(r: Round, p: Plan)
    requires RoundFine(r, p) && !Active(r.lines, p, p.keys[r.at])
    ensures var v := Visit(r, p);
            v.lines == r.lines && v.total == r.total && v.moved == r.moved && v.stop == r.stop
  {
  }

  /** A round visits the destinations one after the other, and begins again. */
  lemma {:induction false} VisitsInTurn(r: Round, p: Plan, k: nat)
    requires RoundFine(r, p) && r.at == 0 && k <= |p.keys|
    ensures Walk(r, p, k).at == if k < |p.keys| then k else 0
  {
    if k > 0 {
      VisitsInTurn(r, p, k - 1);
    }
  }

  // A line after some visits: messages have gone out from the front.
  ghost predicate Drained(l: Line, n: Line) {
    n.accepted == l.accepted && l.delivered <= n.delivered && n.delivered + n.queue == l.delivered + l.queue
  }

  lemma VisitDrains(r: Round, p: Plan, d: Id)
    requires RoundFine(r, p)
    ensures Visit(r, p).lines.Keys == r.lines.Keys
    ensures d in r.lines ==> Drained(r.lines[d], Visit(r, p).lines[d])
    ensures d in r.lines && d !in p.live ==> Visit(r, p).lines[d] == r.lines[d]
  {
    var e := p.keys[r.at];
    if Active(r.lines, p, e) {
      var l := r.lines[e];
      assert l.queue == [l.queue[0]] + l.queue[1..];
      assert l.delivered + l.queue == (l.delivered + [l.queue[0]]) + l.queue[1..];
    }
  }

  lemma {:induction false} WalkDrains(r: Round, p: Plan, k: nat, d: Id)
    requires RoundFine(r, p)
    ensures Walk(r, p, k).lines.Keys == r.lines.Keys
    ensures d in r.lines ==> Drained(r.lines[d], Walk(r, p, k).lines[d])
    ensures d in r.lines && d !in p.live ==> Walk(r, p, k).lines[d] == r.lines[d]
  {
    if k > 0 {
      WalkDrains(r, p, k - 1, d);
      VisitDrains(Walk(r, p, k - 1), p, d);
    }
  }

  // ---------------------------------------------------------------- queues

  /** A message goes behind all that are not later than it, in front of the later
      ones at the end, but never in front of the first. */
  lemma {:induction false} TakesItsPlace(queue: seq<Msg>, m: Msg) returns (i: nat)
    ensures i <= |queue| && Append(queue, m) == queue[..i] + [m] + queue[i..]
    ensures queue != [] ==> i >= 1
    ensures forall j :: i <= j < |queue| ==> m.time < queue[j].time
    ensures i > 1 ==> queue[i - 1].time <= m.time
  {
    var n := |queue|;
    if n <= 1 || queue[n - 1].time <= m.time {
      i := n;
    } else {
      i := TakesItsPlace(queue[..n - 1], m);
      PutBehind(queue, m, i);
    }
  }

  lemma PutBehind(queue: seq<Msg>, m: Msg, i: nat)
    requires i < |queue|
    ensures var before, last := queue[..|queue| - 1], queue[|queue| - 1];
            before[..i] + [m] + before[i..] + [last] == queue[..i] + [m] + queue[i..]
  {
  }

  // ---------------------------------------------------------------- steps

  // What a step makes of one destination's line.
  ghost predicate LineAs(s: Sender, step: Step, t: Sender, e: Id) {
    var l, n := LineOf(s.lines, e), LineOf(t.lines, e);
    match step
    case DoSend(d, m) =>
      if d == e && d in s.conns then
        && n == l.(queue := n.queue, accepted := l.accepted + [m])
        && multiset(n.queue) == multiset(l.queue) + multiset{m}
      else n == l
    case DoDisconnect(d, peer) =>
      n == if d == e && !(d in s.conns && peer) && l.queue != [] then Line([], 0, 0, [], []) else l
    case DoRemoteDisconnect(d) => n == if d == e && l.queue != [] then Line([], 0, 0, [], []) else l
    case DoClear(_) => Drained(l, n) && (e !in s.conns ==> n == l)
    case DoConnect(_) => n == l
  }

  predicate Cuts(s: Sender, step: Step, e: Id) {
    (step.DoDisconnect? && step.d == e && step.peer) || (step.DoRemoteDisconnect? && step.d == e)
  }

  lemma SendIs(s: Sender, step: Step, t: Sender, e: Id)
    requires Next(s, step, t) && step.DoSend?
    ensures LineAs(s, step, t, e)
  {
    var queue := LineOf(s.lines, step.d).queue;
    var i := TakesItsPlace(queue, step.m);
    assert queue == queue[..i] + queue[i..];
  }

  lemma ClearIs(s: Sender, step: Step, t: Sender, e: Id)
    requires Inv(s) && Next(s, step, t) && step.DoClear?
    ensures LineAs(s, step, t, e)
  {
    if t != s {
      var r, p := RoundOf(s), PlanOf(s, step.cap);
      var k: nat :| EndsAt(r, p, k) && t == s.(lines := Walk(r, p, k).lines);
      WalkDrains(r, p, k, e);
    }
  }

  /** Over a step: who is connected afterwards, and what becomes of each
      destination's queue: a message joins the queue of a connected destination,
      a queue is thrown away with its account when its connection is cut by the
      other side or was cut before, and a round only lets messages out from the
      front; no other destination is touched. */
  lemma StepLeaves(s: Sender, step: Step, t: Sender, e: Id)
    requires Inv(s) && Next(s, step, t)
    ensures e in t.conns <==> (e in s.conns && !Cuts(s, step, e)) || step == DoConnect(e)
    ensures LineAs(s, step, t, e)
  {
    match step
    case DoSend(_, _) => SendIs(s, step, t, e);
    case DoClear(_) => ClearIs(s, step, t, e);
    case _ =>
  }
}
