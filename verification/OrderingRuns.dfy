/** Which packets the receiver hands on, told by the packets before them alone,
    and how a sender that starts again is heard again. */
module OrderingRuns {
  import opened Options
  import opened Ordering

  ghost predicate IsHanded(latest: Latest, ps: seq<Packet>, k: nat) {
    k < |ps| && Handed(latest, ps, k + 1) == Handed(latest, ps, k) + [ps[k]]
  }

  lemma {:induction false} HandedNext(latest: Latest, ps: seq<Packet>, k: nat, next: nat)
    requires k < |ps| && next == k + 1
    ensures Handed(latest, ps, next) ==
            Handed(latest, ps, k) + if Used(After(latest, ps, k), ps[k]) then [ps[k]] else []
  {
  }

  lemma {:induction false} AfterNext(latest: Latest, ps: seq<Packet>, k: nat, next: nat)
    requires k < |ps| && next == k + 1
    ensures After(latest, ps, next) == Order(After(latest, ps, k), ps[k])
  {
  }

  lemma OneLonger(before: seq<Packet>, p: Packet, used: bool)
    ensures before + (if used then [p] else []) == before + [p] <==> used
  {
    assert |before + [p]| == |before| + 1;
  }

  lemma {:induction false} HandedIsUsed(latest: Latest, ps: seq<Packet>, k: nat, next: nat)
    requires k < |ps| && next == k + 1
    ensures IsHanded(latest, ps, k) <==> Used(After(latest, ps, k), ps[k])
    ensures After(latest, ps, next) ==
            if IsHanded(latest, ps, k) then After(latest, ps, k)[ps[k].from := ps[k].number] else After(latest, ps, k)
  {
    HandedNext(latest, ps, k, next);
    AfterNext(latest, ps, k, next);
    OneLonger(Handed(latest, ps, k), ps[k], Used(After(latest, ps, k), ps[k]));
  }

  // j is the last packet before n from this sender that was handed on.
  ghost predicate LastHanded(latest: Latest, ps: seq<Packet>, from: Id, j: nat, n: nat) {
    && j < n <= |ps| && ps[j].from == from && IsHanded(latest, ps, j)
    && forall i :: j < i < n && ps[i].from == from ==> !IsHanded(latest, ps, i)
  }

  lemma LastHandedNext(latest: Latest, ps: seq<Packet>, from: Id, j: nat, n: nat, next: nat)
    requires n < |ps| && next == n + 1 && j < n
    ensures LastHanded(latest, ps, from, j, next) <==>
            LastHanded(latest, ps, from, j, n) && !(ps[n].from == from && IsHanded(latest, ps, n))
  {
  }

  // What is remembered of a sender is the last packet of it handed on.
  ghost predicate RemembersLast(latest: Latest, ps: seq<Packet>, from: Id, n: nat)
    requires n <= |ps|
  {
    && (from in After(latest, ps, n) && from !in latest ==> exists j: nat :: LastHanded(latest, ps, from, j, n))
    && (forall j: nat :: LastHanded(latest, ps, from, j, n) ==>
          from in After(latest, ps, n) && After(latest, ps, n)[from] == ps[j].number)
  }

  lemma RemembersNext(latest: Latest, ps: seq<Packet>, from: Id, n: nat, next: nat)
    requires n < |ps| && next == n + 1 && RemembersLast(latest, ps, from, n)
    ensures RemembersLast(latest, ps, from, next)
  {
    HandedIsUsed(latest, ps, n, next);
    if ps[n].from == from && IsHanded(latest, ps, n) {
      assert LastHanded(latest, ps, from, n, next);
    } else if j: nat :| LastHanded(latest, ps, from, j, n) {
      LastHandedNext(latest, ps, from, j, n, next);
    }
    forall j: nat | LastHanded(latest, ps, from, j, next)
      ensures from in After(latest, ps, next) && After(latest, ps, next)[from] == ps[j].number
    {
      if j < n {
        LastHandedNext(latest, ps, from, j, n, next);
      }
    }
  }

  lemma {:induction false} AlwaysRemembers(latest: Latest, ps: seq<Packet>, from: Id, n: nat)
    requires n <= |ps|
    ensures RemembersLast(latest, ps, from, n)
  {
    if n > 0 {
      AlwaysRemembers(latest, ps, from, n - 1);
      RemembersNext(latest, ps, from, n - 1, n);
    }
  }

  // The second number is later than the first, or opens a new round.
  predicate ComesAfter(last: Number, next: Number) {
    last < next || (240 <= last && next < 10)
  }

  /** Over every run, a packet is handed on exactly when it only synchronises, or
      names no sender, or is the first handed on from its sender, or comes after
      the last one handed on from it.  Then it, and nothing else, is remembered. */
  lemma HandedIff(ps: seq<Packet>, n: nat)
    requires n < |ps|
    ensures IsHanded(map[], ps, n) <==>
            || ps[n].size == 0 || ps[n].from == 0
            || (forall j: nat :: !LastHanded(map[], ps, ps[n].from, j, n))
            || (exists j: nat :: LastHanded(map[], ps, ps[n].from, j, n) && ComesAfter(ps[j].number, ps[n].number))
    ensures !IsHanded(map[], ps, n) ==> Handed(map[], ps, n + 1) == Handed(map[], ps, n)
  {
    AlwaysRemembers(map[], ps, ps[n].from, n);
    HandedIsUsed(map[], ps, n, n + 1);
  }

  /** The decoder's pool is emptied exactly when a packet with a payload opens a
      new round for its sender. */
  lemma {:induction false} PoolIsClearedIff(ps: seq<Packet>, n: nat)
    requires n < |ps|
    ensures Resets(After(map[], ps, n), ps[n]) <==>
            && ps[n].size != 0 && ps[n].from != 0
            && exists j: nat :: LastHanded(map[], ps, ps[n].from, j, n) && 240 <= ps[j].number && ps[n].number < 10
  {
    AlwaysRemembers(map[], ps, ps[n].from, n);
  }

  // ---------------------------------------------------------------- starting again

  // From j on, each packet of this sender is at most ten numbers after its last.
  ghost predicate SteadyFrom(ps: seq<Packet>, from: Id, j: nat) {
    forall i: nat, k: nat :: j <= i && NextOf(ps, from, i, k) ==> Near(ps[i].number, ps[k].number)
  }

  ghost predicate NextOf(ps: seq<Packet>, from: Id, i: nat, k: nat) {
    i < k < |ps| && ps[i].from == ps[k].from == from && forall m :: i < m < k ==> ps[m].from != from
  }

  predicate Near(last: Number, next: Number) {
    exists gap :: 1 <= gap <= 10 && next == Plus(last, gap)
  }

  // The receiver has followed this sender from packet j to its last before n.
  ghost predicate Following(latest: Latest, ps: seq<Packet>, from: Id, j: nat, n: nat, i: nat) {
    && j <= i < n <= |ps| && ps[i].from == from && (forall m :: i < m < n ==> ps[m].from != from)
    && from in After(latest, ps, n) && After(latest, ps, n)[from] == ps[i].number
    && forall k :: j <= k < n && ps[k].from == from ==> IsHanded(latest, ps, k)
  }

  lemma SyncIsHanded(latest: Latest, ps: seq<Packet>, j: nat, next: nat)
    requires j < |ps| && ps[j].size == 0 && next == j + 1
    ensures Following(latest, ps, ps[j].from, j, next, j)
  {
    HandedIsUsed(latest, ps, j, next);
  }

  lemma FollowsOn(latest: Latest, ps: seq<Packet>, from: Id, j: nat, n: nat, next: nat, i: nat) returns (k: nat)
    requires n < |ps| && next == n + 1 && SteadyFrom(ps, from, j) && Following(latest, ps, from, j, n, i)
    ensures Following(latest, ps, from, j, next, k)
  {
    HandedIsUsed(latest, ps, n, next);
    if ps[n].from == from {
      k := n;
      assert NextOf(ps, from, i, n);
      assert Near(ps[i].number, ps[n].number);
      var gap :| 1 <= gap <= 10 && ps[n].number == Plus(ps[i].number, gap);
      GapIsSafeIff(gap);
    } else {
      k := i;
    }
  }

  lemma {:induction false} FollowsTo(latest: Latest, ps: seq<Packet>, from: Id, j: nat, n: nat) returns (i: nat)
    requires j < n <= |ps| && ps[j].size == 0 && ps[j].from == from && SteadyFrom(ps, from, j)
    ensures Following(latest, ps, from, j, n, i)
    decreases n
  {
    if n == j + 1 {
      SyncIsHanded(latest, ps, j, n);
      i := j;
    } else {
      var h := FollowsTo(latest, ps, from, j, n - 1);
      i := FollowsOn(latest, ps, from, j, n - 1, n, h);
    }
  }

  /** Whatever was received before, a sync packet makes the receiver start again:
      it is handed on, and so is every later packet of that sender, as long as
      these skip no more than nine numbers, whatever other senders do. */
  lemma SyncStartsAgain(latest: Latest, ps: seq<Packet>, j: nat, k: nat)
    requires j <= k < |ps| && ps[j].size == 0 && ps[k].from == ps[j].from && SteadyFrom(ps, ps[j].from, j)
    ensures IsHanded(latest, ps, k)
  {
    var i := FollowsTo(latest, ps, ps[j].from, j, |ps|);
  }

  // ---------------------------------------------------------------- keep-alives

  // When the last keep-alive went out before message n; times[k] is that of message k.
  function LastKeepalive(interval: nat, times: seq<nat>, n: nat): nat
    requires n <= |times|
  {
    if n == 0 then 0
    else
      var last := LastKeepalive(interval, times, n - 1);
      if Due(last, interval, times[n - 1]) then times[n - 1] else last
  }

  predicate Precedes(interval: nat, times: seq<nat>, k: nat)
    requires k < |times|
  {
    Due(LastKeepalive(interval, times, k), interval, times[k])
  }

  lemma {:induction false} LastIs(interval: nat, times: seq<nat>, n: nat)
    requires n <= |times| && forall i, j :: 0 <= i < j < |times| ==> times[i] <= times[j]
    ensures var last := LastKeepalive(interval, times, n);
            && (last == 0 || exists k :: 0 <= k < n && Precedes(interval, times, k) && last == times[k])
            && forall k :: 0 <= k < n && Precedes(interval, times, k) ==> times[k] <= last
  {
    if n > 0 {
      LastIs(interval, times, n - 1);
    }
  }

  /** A keep-alive precedes a message exactly when the first interval is over and
      so is the interval after each keep-alive before. */
  lemma KeepaliveIff(interval: nat, times: seq<nat>, n: nat)
    requires n < |times| && forall i, j :: 0 <= i < j < |times| ==> times[i] <= times[j]
    ensures Precedes(interval, times, n) <==>
            && interval < times[n]
            && forall k :: 0 <= k < n && Precedes(interval, times, k) ==> times[k] + interval < times[n]
  {
    LastIs(interval, times, n);
  }
}
