/** The decoder's pool of plain packets and queue of coded ones
    (VASTnet/udpNC_decoder.cpp): which coded packet is picked for decoding, and
    what is left. */
module PacketPool {
  import opened Options

  type Id = nat

  const MAX_PACKET_SIZE := 500
  const UNASSIGNED: Id := 0

  // A message as the decoder sees it: the packets coded together in it, its
  // payload's size, its first sender, and all the rest.
  datatype Message = Message(ids: seq<Id>, size: nat, from: Id, rest: nat)

  type Pool = map<Id, Message>

  // How many of the first n ids of a coded packet are not in the pool.
  function Absent(pool: Pool, c: Message, n: nat): nat
    requires n <= |c.ids|
  {
    if n == 0 then 0 else Absent(pool, c, n - 1) + if c.ids[n - 1] in pool then 0 else 1
  }

  function Missing(pool: Pool, c: Message): nat {
    Absent(pool, c, |c.ids|)
  }

  // A coded packet can be decoded when exactly one of its packets is missing.
  predicate Decodable(pool: Pool, c: Message) {
    Missing(pool, c) == 1
  }

  /** The first decodable packet at an even place from 2i on: erasing a packet
      and then moving on passes over the one behind it. */
  function PickFrom(pool: Pool, queue: seq<Message>, i: nat): (k: Option<nat>)
    ensures k.Some? ==> k.value < |queue| && 2 * i <= k.value && k.value % 2 == 0 && Decodable(pool, queue[k.value])
    decreases |queue| - 2 * i
  {
    if 2 * i >= |queue| then None
    else if Decodable(pool, queue[2 * i]) then Some(2 * i)
    else PickFrom(pool, queue, i + 1)
  }

  lemma {:induction false} PickIsFirst(pool: Pool, queue: seq<Message>, i: nat, j: nat)
    requires i <= j && 2 * j < |queue| && Decodable(pool, queue[2 * j])
    ensures PickFrom(pool, queue, i).Some? && PickFrom(pool, queue, i).value <= 2 * j
    decreases j - i
  {
    if !Decodable(pool, queue[2 * i]) {
      PickIsFirst(pool, queue, i + 1, j);
    }
  }

  function Pick(pool: Pool, queue: seq<Message>): Option<nat> {
    PickFrom(pool, queue, 0)
  }

  // The packets passed over among the first 2i.
  function PassedOver(queue: seq<Message>, i: nat): (r: seq<Message>)
    requires 2 * i <= |queue| + 1
    ensures |r| == if 2 * i <= |queue| then i else i - 1
  {
    if i == 0 then []
    else PassedOver(queue, i - 1) + if 2 * i <= |queue| then [queue[2 * i - 1]] else []
  }

  // The examined packets among the first 2i with all their packets in the pool.
  function Complete(pool: Pool, queue: seq<Message>, i: nat): nat
    requires 2 * i <= |queue| + 1
  {
    if i == 0 then 0
    else Complete(pool, queue, i - 1) + if Missing(pool, queue[2 * i - 2]) == 0 then 1 else 0
  }

  // The ids of a coded packet that are in the pool.
  function Present(pool: Pool, c: Message): set<Id> {
    set id | id in c.ids && id in pool
  }

  // The pooled packets by their place in the coded packet.
  function Available(pool: Pool, c: Message): map<nat, Message> {
    map j | 0 <= j < |c.ids| && c.ids[j] in pool :: pool[c.ids[j]]
  }

  // Half the queue's length, rounded up: the examined packets when none is picked.
  function Examined(queue: seq<Message>, k: Option<nat>): (i: nat)
    requires k.Some? ==> k.value < |queue|
    ensures 2 * i <= |queue| + 1
  {
    if k.Some? then k.value / 2 else (|queue| + 1) / 2
  }

  datatype Fetched = Fetched(
    pool: Pool, queue: seq<Message>, picked: Option<Message>, available: map<nat, Message>,
    already: nat, undecodable: nat)

  function Fetch(pool: Pool, queue: seq<Message>): Fetched {
    var k := Pick(pool, queue);
    var i := Examined(queue, k);
    var done := Complete(pool, queue, i);
    CompleteIsSmall(pool, queue, i);
    match k
    case None => Fetched(pool, PassedOver(queue, i), None, map[], done, i - done)
    case Some(at) =>
      var c := queue[at];
      Fetched(pool - Present(pool, c), PassedOver(queue, i) + queue[at + 1..], Some(c), Available(pool, c),
              done, i - done)
  }

  lemma {:induction false} CompleteIsSmall(pool: Pool, queue: seq<Message>, i: nat)
    requires 2 * i <= |queue| + 1
    ensures Complete(pool, queue, i) <= i
  {
    if i > 0 {
      CompleteIsSmall(pool, queue, i - 1);
    }
  }

  lemma {:induction false} AbsentBetween(pool: Pool, c: Message, j: nat, n: nat)
    requires j < n <= |c.ids|
    ensures c.ids[j] !in pool ==> Absent(pool, c, n) > 0
    ensures c.ids[j] !in pool && Absent(pool, c, n) == 1 ==> forall l :: 0 <= l < n && l != j ==> c.ids[l] in pool
  {
    if j < n - 1 {
      AbsentBetween(pool, c, j, n - 1);
    } else {
      NoneAbsent(pool, c, n - 1);
    }
  }

  lemma {:induction false} NoneAbsent(pool: Pool, c: Message, n: nat)
    requires n <= |c.ids|
    ensures Absent(pool, c, n) == 0 <==> forall l :: 0 <= l < n ==> c.ids[l] in pool
  {
    if n > 0 {
      NoneAbsent(pool, c, n - 1);
    }
  }

  // All but one of its packets are in the pool.
  predicate LacksOne(pool: Pool, c: Message) {
    exists j :: 0 <= j < |c.ids| && c.ids[j] !in pool && forall l :: 0 <= l < |c.ids| && l != j ==> c.ids[l] in pool
  }

  lemma {:induction false} DecodableIff(pool: Pool, c: Message)
    ensures Decodable(pool, c) <==> LacksOne(pool, c)
  {
    NoneAbsent(pool, c, |c.ids|);
    if Decodable(pool, c) {
      var j :| 0 <= j < |c.ids| && c.ids[j] !in pool;
      AbsentBetween(pool, c, j, |c.ids|);
    } else if LacksOne(pool, c) {
      var j :| 0 <= j < |c.ids| && c.ids[j] !in pool && forall l :: 0 <= l < |c.ids| && l != j ==> c.ids[l] in pool;
      OneAbsent(pool, c, j, |c.ids|);
    }
  }

  lemma {:induction false} OneAbsent(pool: Pool, c: Message, j: nat, n: nat)
    requires n <= |c.ids| && j < |c.ids| && c.ids[j] !in pool
    requires forall l :: 0 <= l < |c.ids| && l != j ==> c.ids[l] in pool
    ensures Absent(pool, c, n) == if j < n then 1 else 0
  {
    if n > 0 {
      OneAbsent(pool, c, j, n - 1);
    }
  }

  // The packet at place 2i is the first at an even place that lacks just one.
  ghost predicate FirstLacking(pool: Pool, queue: seq<Message>, i: nat) {
    2 * i < |queue| && LacksOne(pool, queue[2 * i]) && forall j :: 0 <= j < i ==> !LacksOne(pool, queue[2 * j])
  }

  lemma PickIs(pool: Pool, queue: seq<Message>)
    ensures Pick(pool, queue).None? <==> forall i: nat :: !FirstLacking(pool, queue, i)
    ensures forall i: nat :: FirstLacking(pool, queue, i) ==> Pick(pool, queue) == Some(2 * i)
  {
    var k := Pick(pool, queue);
    forall i | 0 <= i && 2 * i < |queue|
      ensures Decodable(pool, queue[2 * i]) <==> LacksOne(pool, queue[2 * i])
      ensures Decodable(pool, queue[2 * i]) ==> k.Some? && k.value <= 2 * i
    {
      DecodableIff(pool, queue[2 * i]);
      if Decodable(pool, queue[2 * i]) {
        PickIsFirst(pool, queue, 0, i);
      }
    }
    if k.Some? {
      assert k.value == 2 * (k.value / 2);
      assert FirstLacking(pool, queue, k.value / 2);
    }
  }

  /** A packet is picked if and only if one at an even place lacks exactly one of
      its packets; it is the first such.  The packets of it that are in the pool
      are yielded under their places and taken from the pool, and nothing else is. */
  lemma FetchPicks(pool: Pool, queue: seq<Message>)
    ensures var f := Fetch(pool, queue);
            && (f.picked.None? <==> forall i: nat :: !FirstLacking(pool, queue, i))
            && (forall i: nat :: FirstLacking(pool, queue, i) ==> f.picked == Some(queue[2 * i]))
            && (f.picked.None? ==> f.pool == pool && f.available == map[])
            && (f.picked.Some? ==>
                  var c := f.picked.value;
                  && (forall id :: id in f.pool <==> id in pool && id !in c.ids)
                  && (forall id :: id in f.pool ==> f.pool[id] == pool[id])
                  && (forall j :: j in f.available <==> 0 <= j < |c.ids| && c.ids[j] in pool)
                  && forall j :: j in f.available ==> f.available[j] == pool[c.ids[j]])
  {
    PickIs(pool, queue);
  }

  // The examined packets none of whose packets is missing.
  function Whole(pool: Pool, queue: seq<Message>, i: nat): set<nat>
    requires 2 * i <= |queue| + 1
  {
    set l | 0 <= l < i && forall j :: 0 <= j < |queue[2 * l].ids| ==> queue[2 * l].ids[j] in pool
  }

  lemma {:induction false} CompleteCounts(pool: Pool, queue: seq<Message>, i: nat)
    requires 2 * i <= |queue| + 1
    ensures Complete(pool, queue, i) == |Whole(pool, queue, i)|
  {
    if i > 0 {
      var l := i - 1;
      CompleteCounts(pool, queue, l);
      NoneAbsent(pool, queue[2 * l], |queue[2 * l].ids|);
      if Missing(pool, queue[2 * l]) == 0 {
        assert Whole(pool, queue, i) == Whole(pool, queue, l) + {l};
      } else {
        assert Whole(pool, queue, i) == Whole(pool, queue, l);
      }
    }
  }

  /** Counted as decoded already are those at even places before the picked one,
      or anywhere if none is picked, that lack nothing. */
  lemma AlreadyIs(pool: Pool, queue: seq<Message>)
    ensures var f := Fetch(pool, queue);
            && (f.picked.None? ==> f.already == |Whole(pool, queue, (|queue| + 1) / 2)|)
            && forall i: nat :: FirstLacking(pool, queue, i) ==> f.already == |Whole(pool, queue, i)|
  {
    PickIs(pool, queue);
    CompleteCounts(pool, queue, Examined(queue, Pick(pool, queue)));
  }

  // Exactly one place of the picked packet is missing from what is yielded.
  lemma OneIsMissing(pool: Pool, c: Message) returns (j: nat)
    requires Decodable(pool, c)
    ensures j < |c.ids| && c.ids[j] !in pool
    ensures forall l :: 0 <= l < |c.ids| && l != j ==>
              l in Available(pool, c) && Available(pool, c)[l] == pool[c.ids[l]]
    ensures j !in Available(pool, c) && |Available(pool, c)| == |c.ids| - 1
  {
    NoneAbsent(pool, c, |c.ids|);
    j :| 0 <= j < |c.ids| && c.ids[j] !in pool;
    AbsentBetween(pool, c, j, |c.ids|);
    AllButOne(pool, c, j);
  }

  lemma AllButOne(pool: Pool, c: Message, j: nat)
    requires j < |c.ids| && c.ids[j] !in pool
    requires forall l :: 0 <= l < |c.ids| && l != j ==> c.ids[l] in pool
    ensures |Available(pool, c)| == |c.ids| - 1
  {
    PlacesAre(|c.ids|);
    var keys := Available(pool, c).Keys;
    forall l: nat
      ensures l in keys <==> l in Places(|c.ids|) && l != j
    {
    }
    assert keys == Places(|c.ids|) - {j};
  }

  function Places(n: nat): set<nat> {
    if n == 0 then {} else Places(n - 1) + {n - 1}
  }

  lemma {:induction false} PlacesAre(n: nat)
    ensures |Places(n)| == n && forall l: nat :: l in Places(n) <==> l < n
  {
    if n > 0 {
      PlacesAre(n - 1);
    }
  }

  /** No queued packet is unaccounted for: it survives, has been decoded
      already, cannot be decoded, or is the one picked. */
  lemma FetchAccounts(pool: Pool, queue: seq<Message>)
    ensures var f := Fetch(pool, queue);
            |queue| == |f.queue| + f.already + f.undecodable + if f.picked.Some? then 1 else 0
  {
    CompleteIsSmall(pool, queue, Examined(queue, Pick(pool, queue)));
  }

  // Survivor s stands at this place of the queue before.
  function PlaceOf(queue: seq<Message>, k: Option<nat>, s: nat): nat
    requires k.Some? ==> k.value < |queue|
  {
    var i := Examined(queue, k);
    if k.None? || s < i then 2 * s + 1 else k.value + 1 + (s - i)
  }

  lemma {:induction false} PassedOverAt(queue: seq<Message>, i: nat, s: nat)
    requires 2 * i <= |queue| + 1 && s < |PassedOver(queue, i)|
    ensures 2 * s + 1 < |queue| && PassedOver(queue, i)[s] == queue[2 * s + 1]
  {
    if s < |PassedOver(queue, i - 1)| {
      PassedOverAt(queue, i - 1, s);
    }
  }

  /** The survivors keep their order; they are those at odd places before the
      picked packet and all behind it. */
  lemma SurvivorsKeepOrder(pool: Pool, queue: seq<Message>, s: nat)
    requires s < |Fetch(pool, queue).queue|
    ensures var k := Pick(pool, queue);
            && PlaceOf(queue, k, s) < |queue|
            && Fetch(pool, queue).queue[s] == queue[PlaceOf(queue, k, s)]
            && (s > 0 ==> PlaceOf(queue, k, s - 1) < PlaceOf(queue, k, s))
  {
    var k := Pick(pool, queue);
    var i := Examined(queue, k);
    if s < |PassedOver(queue, i)| {
      PassedOverAt(queue, i, s);
    }
  }

  /** A call that picks nothing halves the queue. */
  lemma FailureHalves(pool: Pool, queue: seq<Message>)
    requires Fetch(pool, queue).picked.None?
    ensures |Fetch(pool, queue).queue| == |queue| / 2
  {
  }

  /** A decodable packet at an odd place may not be found. */
  lemma OddPlaceIsMissed(pool: Pool, a: Message, b: Message)
    requires !Decodable(pool, a) && Decodable(pool, b)
    ensures Fetch(pool, [a, b]).picked.None? && Fetch(pool, [a, b]).queue == [b]
  {
    var q := [a, b];
    assert PickFrom(pool, q, 1) == None;
    assert PassedOver(q, 1) == PassedOver(q, 0) + [q[1]];
  }

  // ---------------------------------------------------------------- packets taken in

  // A plain packet that fits goes into the pool, unless another with its id is
  // there, and a coded one into the queue.
  predicate Plain(m: Message) {
    |m.ids| == 1 && m.size < MAX_PACKET_SIZE && m.from != UNASSIGNED
  }

  datatype Added = Added(ok: bool, pool: Pool, queue: seq<Message>)

  function Add(pool: Pool, queue: seq<Message>, m: Message): Added {
    if Plain(m) then
      if m.ids[0] in pool && pool[m.ids[0]] != m then Added(false, pool, queue)
      else Added(true, pool[m.ids[0] := m], queue)
    else Added(true, pool, if |m.ids| > 1 then queue + [m] else queue)
  }

  datatype Step = TakeIn(m: Message) | FetchOne | ClearAll

  function Next(pool: Pool, queue: seq<Message>, step: Step): (Pool, seq<Message>) {
    match step
    case TakeIn(m) => var a := Add(pool, queue, m); (a.pool, a.queue)
    case FetchOne => var f := Fetch(pool, queue); (f.pool, f.queue)
    case ClearAll => (map[], [])
  }

  ghost predicate Runs(pools: seq<Pool>, queues: seq<seq<Message>>, steps: seq<Step>) {
    && |pools| == |queues| == |steps| + 1 && pools[0] == map[] && queues[0] == []
    && forall i :: 0 <= i < |steps| ==> Next(pools[i], queues[i], steps[i]) == (pools[i + 1], queues[i + 1])
  }

  // This packet is taken in at step k and neither used nor cleared away since.
  ghost predicate PooledSince(pools: seq<Pool>, queues: seq<seq<Message>>, steps: seq<Step>, m: Message, k: nat, n: nat)
    requires |pools| == |queues| == |steps| + 1 && n <= |steps|
  {
    && k < n && steps[k] == TakeIn(m) && |m.ids| == 1 && m.size < 500 && m.from != 0
    && (m.ids[0] in pools[k] ==> pools[k][m.ids[0]] == m)
    && forall i :: k < i < n ==> steps[i] != ClearAll && !Uses(pools[i], queues[i], steps[i], m.ids[0])
  }

  // A fetch uses the packets of the coded one it picks.
  ghost predicate Uses(pool: Pool, queue: seq<Message>, step: Step, id: Id) {
    step == FetchOne && exists i: nat :: FirstLacking(pool, queue, i) && id in queue[2 * i].ids
  }

  lemma FetchKeeps(pool: Pool, queue: seq<Message>, id: Id)
    ensures var f := Fetch(pool, queue);
            && (id in f.pool <==> id in pool && !Uses(pool, queue, FetchOne, id))
            && (id in f.pool ==> f.pool[id] == pool[id])
  {
    FetchPicks(pool, queue);
  }

  // What the pool holds under an id is the packet taken in.
  ghost predicate Pooled(pools: seq<Pool>, queues: seq<seq<Message>>, steps: seq<Step>, id: Id, n: nat)
    requires |pools| == |queues| == |steps| + 1 && n <= |steps|
  {
    && (id in pools[n] ==> pools[n][id].ids == [id]
                           && exists k: nat :: PooledSince(pools, queues, steps, pools[n][id], k, n))
    && forall m, k: nat :: PooledSince(pools, queues, steps, m, k, n) && m.ids[0] == id ==>
         id in pools[n] && pools[n][id] == m
  }

  lemma PooledLonger(pools: seq<Pool>, queues: seq<seq<Message>>, steps: seq<Step>, m: Message, k: nat, n: nat,
                     next: nat)
    requires |pools| == |queues| == |steps| + 1 && n < |steps| && next == n + 1 && k < n && |m.ids| == 1
    ensures PooledSince(pools, queues, steps, m, k, next) <==>
            && PooledSince(pools, queues, steps, m, k, n)
            && steps[n] != ClearAll && !Uses(pools[n], queues[n], steps[n], m.ids[0])
  {
  }

  lemma StepPools(pools: seq<Pool>, queues: seq<seq<Message>>, steps: seq<Step>, id: Id, n: nat, next: nat)
    requires Runs(pools, queues, steps) && n < |steps| && next == n + 1
    ensures id in pools[next] ==>
              || (id in pools[n] && pools[next][id] == pools[n][id]
                  && steps[n] != ClearAll && !Uses(pools[n], queues[n], steps[n], id))
              || PooledSince(pools, queues, steps, pools[next][id], n, next)
    ensures id in pools[n] && steps[n] != ClearAll && !Uses(pools[n], queues[n], steps[n], id) ==>
              id in pools[next] && pools[next][id] == pools[n][id]
  {
    assert Next(pools[n], queues[n], steps[n]) == (pools[next], queues[next]);
    if steps[n].FetchOne? {
      FetchKeeps(pools[n], queues[n], id);
    }
  }

  lemma PooledNext(pools: seq<Pool>, queues: seq<seq<Message>>, steps: seq<Step>, id: Id, n: nat, next: nat)
    requires Runs(pools, queues, steps) && n < |steps| && next == n + 1 && Pooled(pools, queues, steps, id, n)
    ensures Pooled(pools, queues, steps, id, next)
  {
    StepPools(pools, queues, steps, id, n, next);
    if id in pools[next] && !PooledSince(pools, queues, steps, pools[next][id], n, next) {
      var k: nat :| PooledSince(pools, queues, steps, pools[n][id], k, n);
      PooledLonger(pools, queues, steps, pools[n][id], k, n, next);
    }
    forall m, k: nat | PooledSince(pools, queues, steps, m, k, next) && m.ids[0] == id
      ensures id in pools[next] && pools[next][id] == m
    {
      if k < n {
        PooledLonger(pools, queues, steps, m, k, n, next);
      } else {
        assert Next(pools[n], queues[n], steps[n]) == (pools[next], queues[next]);
      }
    }
  }

  /** Over every run, the pool holds exactly the plain packets that have been taken
      in, each under its id, and have not been used or cleared away since. */
  lemma {:induction false} PoolHolds(pools: seq<Pool>, queues: seq<seq<Message>>, steps: seq<Step>, id: Id, n: nat)
    requires Runs(pools, queues, steps) && n <= |steps|
    ensures Pooled(pools, queues, steps, id, n)
  {
    if n > 0 {
      PoolHolds(pools, queues, steps, id, n - 1);
      PooledNext(pools, queues, steps, id, n - 1, n);
    }
  }

  // ---------------------------------------------------------------- the decoder

  // The queue when i packets have been examined and erased.
  function Remaining(queue: seq<Message>, i: nat): (r: seq<Message>)
    requires 2 * i <= |queue| + 1
    ensures i < |r| <==> 2 * i < |queue|
    ensures i < |r| ==> r[i] == queue[2 * i]
  {
    PassedOver(queue, i) + if 2 * i <= |queue| then queue[2 * i..] else []
  }

  lemma {:induction false} EraseSkips(queue: seq<Message>, i: nat, j: nat)
    requires 2 * i < |queue| && j == i + 1
    ensures Remaining(queue, i)[..i] + Remaining(queue, i)[i + 1..] == PassedOver(queue, i) + queue[2 * i + 1..]
    ensures PassedOver(queue, i) + queue[2 * i + 1..] == Remaining(queue, j)
  {
    var r := Remaining(queue, i);
    assert r[..i] == PassedOver(queue, i) && r[i + 1..] == queue[2 * i + 1..];
    if 2 * i + 2 <= |queue| {
      assert queue[2 * i + 1..] == [queue[2 * i + 1]] + queue[2 * i + 2..];
    }
  }

  // How far a search has come: the next packet to examine and the counts so far.
  ghost predicate Reached(pool: Pool, queue: seq<Message>, i: nat, left: seq<Message>, already: nat, undecodable: nat) {
    && 2 * i <= |queue| + 1 && left == Remaining(queue, i)
    && Pick(pool, queue) == PickFrom(pool, queue, i)
    && already == Complete(pool, queue, i) && undecodable == i - Complete(pool, queue, i)
  }

  lemma ReachedNext(pool: Pool, queue: seq<Message>, i: nat, j: nat, left: seq<Message>,
                    already: nat, undecodable: nat, already': nat, undecodable': nat)
    requires Reached(pool, queue, i, left, already, undecodable) && i < |left| && j == i + 1
    requires !Decodable(pool, left[i])
    requires already' == already + if Missing(pool, left[i]) == 0 then 1 else 0
    requires undecodable' == undecodable + if Missing(pool, left[i]) == 0 then 0 else 1
    ensures Reached(pool, queue, j, left[..i] + left[i + 1..], already', undecodable')
  {
    EraseSkips(queue, i, j);
  }

  lemma ReachedPick(pool: Pool, queue: seq<Message>, i: nat, left: seq<Message>, already: nat, undecodable: nat)
    requires Reached(pool, queue, i, left, already, undecodable) && i < |left| && Decodable(pool, left[i])
    ensures Fetch(pool, queue) ==
            Fetched(pool - Present(pool, left[i]), left[..i] + left[i + 1..], Some(left[i]), Available(pool, left[i]),
                    already, undecodable)
  {
    EraseSkips(queue, i, i + 1);
    FoundAt(pool, queue, i);
  }

  lemma ReachedEnd(pool: Pool, queue: seq<Message>, i: nat, left: seq<Message>, already: nat, undecodable: nat)
    requires Reached(pool, queue, i, left, already, undecodable) && i >= |left|
    ensures Fetch(pool, queue) == Fetched(pool, left, None, map[], already, undecodable)
  {
    NotFound(pool, queue, i);
  }

  lemma {:induction false} FoundAt(pool: Pool, queue: seq<Message>, i: nat)
    requires 2 * i < |queue| && Pick(pool, queue) == PickFrom(pool, queue, i) && Decodable(pool, queue[2 * i])
    ensures var c, done := queue[2 * i], Complete(pool, queue, i);
            done <= i && Fetch(pool, queue) ==
            Fetched(pool - Present(pool, c), PassedOver(queue, i) + queue[2 * i + 1..], Some(c), Available(pool, c),
                    done, i - done)
  {
    CompleteIsSmall(pool, queue, i);
  }

  lemma {:induction false} NotFound(pool: Pool, queue: seq<Message>, i: nat)
    requires |queue| <= 2 * i <= |queue| + 1 && Pick(pool, queue) == PickFrom(pool, queue, i)
    ensures var done := Complete(pool, queue, i);
            done <= i && Fetch(pool, queue) == Fetched(pool, Remaining(queue, i), None, map[], done, i - done)
  {
    CompleteIsSmall(pool, queue, i);
    assert i == (|queue| + 1) / 2;
    if 2 * i <= |queue| {
      assert queue[2 * i..] == [];
    }
  }

  // The search as the decoder does it: on the queue left, at place i.
  function Search(pool: Pool, left: seq<Message>, i: nat, already: nat, undecodable: nat): Fetched
    decreases |left|
  {
    if i >= |left| then Fetched(pool, left, None, map[], already, undecodable)
    else
      var c, rest, n := left[i], left[..i] + left[i + 1..], Missing(pool, left[i]);
      if n == 0 then Search(pool, rest, i + 1, already + 1, undecodable)
      else if n == 1 then
        Fetched(pool - Present(pool, c), rest, Some(c), Available(pool, c), already, undecodable)
      else Search(pool, rest, i + 1, already, undecodable + 1)
  }

  lemma SearchGoesOn(pool: Pool, left: seq<Message>, i: nat, already: nat, undecodable: nat,
                     j: nat, already': nat, undecodable': nat)
    requires i < |left| && !Decodable(pool, left[i]) && j == i + 1
    requires already' == already + if Missing(pool, left[i]) == 0 then 1 else 0
    requires undecodable' == undecodable + if Missing(pool, left[i]) == 0 then 0 else 1
    ensures Search(pool, left, i, already, undecodable) ==
            Search(pool, left[..i] + left[i + 1..], j, already', undecodable')
  {
  }

  lemma {:induction false} SearchIsFetch(pool: Pool, queue: seq<Message>,
                                         left: seq<Message>, i: nat, already: nat, undecodable: nat)
    requires Reached(pool, queue, i, left, already, undecodable)
    ensures Search(pool, left, i, already, undecodable) == Fetch(pool, queue)
    decreases |left|
  {
    if i >= |left| {
      ReachedEnd(pool, queue, i, left, already, undecodable);
    } else if Decodable(pool, left[i]) {
      ReachedPick(pool, queue, i, left, already, undecodable);
    } else {
      var already' := already + if Missing(pool, left[i]) == 0 then 1 else 0;
      var undecodable' := undecodable + if Missing(pool, left[i]) == 0 then 0 else 1;
      var next := i + 1;
      ReachedNext(pool, queue, i, next, left, already, undecodable, already', undecodable');
      SearchGoesOn(pool, left, i, already, undecodable, next, already', undecodable');
      SearchIsFetch(pool, queue, left[..i] + left[i + 1..], next, already', undecodable');
    }
  }

  lemma {:induction false} WholeSearchIsFetch(pool: Pool, queue: seq<Message>)
    ensures Search(pool, queue, 0, 0, 0) == Fetch(pool, queue)
  {
    assert Remaining(queue, 0) == queue;
    SearchIsFetch(pool, queue, queue, 0, 0, 0);
  }

  class Decoder {
    var packetPool: Pool
    var ncPackets: seq<Message>
    var packetsAlreadyDecoded: nat
    var packetsMissingUndecodable: nat

    constructor ()
      ensures packetPool == map[] && ncPackets == []
      ensures packetsAlreadyDecoded == 0 && packetsMissingUndecodable == 0
    {
      packetPool, ncPackets, packetsAlreadyDecoded, packetsMissingUndecodable := map[], [], 0, 0;
    }

    /** A plain packet that fits goes into the pool and a coded one into the
        queue.  Another packet with a pooled packet's id is an error. */
    method AddMessage(m: Message) returns (ok: bool)
      modifies `packetPool, `ncPackets
      ensures Added(ok, packetPool, ncPackets) == Add(old(packetPool), old(ncPackets), m)
    {
      if |m.ids| == 1 && m.size < MAX_PACKET_SIZE && m.from != UNASSIGNED {
        if m.ids[0] in packetPool && packetPool[m.ids[0]] != m {
          return false;
        }
        packetPool := packetPool[m.ids[0] := m];
      } else if |m.ids| > 1 {
        ncPackets := ncPackets + [m];
      }
      return true;
    }

    method ClearPacketPool()
      modifies `packetPool, `ncPackets
      ensures packetPool == map[] && ncPackets == []
    {
      packetPool, ncPackets := map[], [];
    }

    method CountAvailable(c: Message) returns (n: nat)
      ensures n == |c.ids| - Missing(packetPool, c)
    {
      n := 0;
      var j := 0;
      while j < |c.ids|
        invariant 0 <= j <= |c.ids| && n == j - Absent(packetPool, c, j)
      {
        if c.ids[j] in packetPool {
          n := n + 1;
        }
        j := j + 1;
      }
    }

    // The packets of c that are in the pool, and a place whose packet is not.
    method Collect(c: Message) returns (available: map<nat, Message>, missing: Option<nat>)
      ensures available == Available(packetPool, c)
      ensures missing.Some? ==> missing.value < |c.ids| && c.ids[missing.value] !in packetPool
      ensures missing.None? ==> forall l :: 0 <= l < |c.ids| ==> c.ids[l] in packetPool
    {
      available, missing := map[], None;
      var j: nat := 0;
      while j < |c.ids|
        invariant j <= |c.ids|
        invariant available == map l | 0 <= l < j && c.ids[l] in packetPool :: packetPool[c.ids[l]]
        invariant missing.Some? ==> missing.value < |c.ids| && c.ids[missing.value] !in packetPool
        invariant missing.None? ==> forall l :: 0 <= l < j ==> c.ids[l] in packetPool
      {
        if c.ids[j] in packetPool {
          available := available[j := packetPool[c.ids[j]]];
        } else {
          missing := Some(j);
        }
        j := j + 1;
      }
    }

    method Take(c: Message)
      modifies `packetPool
      ensures packetPool == old(packetPool) - Present(old(packetPool), c)
    {
      var j := 0;
      while j < |c.ids|
        invariant 0 <= j <= |c.ids|
        invariant packetPool == old(packetPool) - (set l | 0 <= l < j && c.ids[l] in old(packetPool) :: c.ids[l])
      {
        if c.ids[j] in packetPool {
          packetPool := packetPool - {c.ids[j]};
        }
        j := j + 1;
      }
      assert (set l | 0 <= l < j && c.ids[l] in old(packetPool) :: c.ids[l]) == Present(old(packetPool), c);
    }

    // Takes the decodable packet at i out of the queue, and its packets out of the pool.
    method PickUp(i: nat) returns (available: map<nat, Message>, missing: nat)
      requires i < |ncPackets| && Decodable(packetPool, ncPackets[i])
      modifies `packetPool, `ncPackets
      ensures var c := old(ncPackets)[i];
              && packetPool == old(packetPool) - Present(old(packetPool), c)
              && ncPackets == old(ncPackets)[..i] + old(ncPackets)[i + 1..]
              && available == Available(old(packetPool), c)
              && missing < |c.ids| && c.ids[missing] !in old(packetPool)
    {
      var c := ncPackets[i];
      NoneAbsent(packetPool, c, |c.ids|);
      var found;
      available, found := Collect(c);
      missing := found.value;
      Take(c);
      ncPackets := ncPackets[..i] + ncPackets[i + 1..];
    }

    /** Looks for a coded packet to decode; what it finds is the value `Fetch`
        says, and the place that is missing from it. */
    method FetchFromPacketPool()
      returns (ok: bool, active: Option<Message>, available: map<nat, Message>, missing: Option<nat>)
      modifies this
      ensures var f := Fetch(old(packetPool), old(ncPackets));
              && packetPool == f.pool && ncPackets == f.queue && active == f.picked && available == f.available
              && packetsAlreadyDecoded == old(packetsAlreadyDecoded) + f.already
              && packetsMissingUndecodable == old(packetsMissingUndecodable) + f.undecodable
              && (ok <==> f.picked.Some?)
              && (ok ==> missing.Some? && missing.value < |f.picked.value.ids|
                         && f.picked.value.ids[missing.value] !in old(packetPool))
    {
      WholeSearchIsFetch(packetPool, ncPackets);
      ghost var found := Search(packetPool, ncPackets, 0, 0, 0);
      ok, active, available, missing := false, None, map[], None;
      var i: nat := 0;
      ghost var already: nat, undecodable: nat := 0, 0;
      while i < |ncPackets|
        invariant found == Search(packetPool, ncPackets, i, already, undecodable)
        invariant packetPool == old(packetPool)
        invariant packetsAlreadyDecoded == old(packetsAlreadyDecoded) + already
        invariant packetsMissingUndecodable == old(packetsMissingUndecodable) + undecodable
        decreases |ncPackets|
      {
        var c := ncPackets[i];
        var n := CountAvailable(c);
        ghost var already', undecodable' := already, undecodable;
        if n == |c.ids| {
          packetsAlreadyDecoded, already' := packetsAlreadyDecoded + 1, already + 1;
        } else if n >= |c.ids| - 1 {
          var place;
          available, place := PickUp(i);
          return true, Some(c), available, Some(place);
        } else {
          packetsMissingUndecodable, undecodable' := packetsMissingUndecodable + 1, undecodable + 1;
        }
        var next := i + 1;
        SearchGoesOn(packetPool, ncPackets, i, already, undecodable, next, already', undecodable');
        ncPackets := ncPackets[..i] + ncPackets[i + 1..];
        i, already, undecodable := next, already', undecodable';
      }
    }
  }
}
