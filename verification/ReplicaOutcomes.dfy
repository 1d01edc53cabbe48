/** What a matcher's subscriptions become by updates, and what a copy sends. */
module ReplicaOutcomes {
  import opened Options
  import opened Sequences
  import opened Replicas

  predicate Accepts(m: Matcher, id: Id, time: nat) {
    id in m.subscriptions && (time == 0 || m.subscriptions[id].time <= time)
  }

  /** An update that is not earlier leaves the object at the new centre, with the
      radius and height that are given, at its time and with its relay if it
      brings one, and marked as changed; the record of its copies is cleared when
      the relay is new and the object is owned.  Nothing else changes, and an
      earlier or unknown update changes nothing. */
  lemma UpdateIsTaken(m: Matcher, id: Id, aoi: Area, time: nat, relay: Option<Id>, owned: bool, other: Id)
    ensures var n := Updated(m, id, aoi, time, relay, owned);
            if !Accepts(m, id, time) then n == m
            else
              var was, now := m.subscriptions[id], n.subscriptions[id];
              && n.neighbors == m.neighbors && n.subscriptions.Keys == m.subscriptions.Keys
              && now.aoi.center == aoi.center
              && now.aoi.radius == (if aoi.radius == 0 then was.aoi.radius else aoi.radius)
              && now.aoi.height == (if aoi.height == 0 then was.aoi.height else aoi.height)
              && now.time == (if time == 0 then was.time else time)
              && now.relay == (if relay.Some? then relay.value else was.relay)
              && now.dirty
              && (other in m.subscriptions && other != id ==> n.subscriptions[other] == m.subscriptions[other])
              && forall o: Id, target: Id :: Recorded(n, o, target) <==>
                   Recorded(m, o, target) && !(o == id && owned && relay.Some? && relay.value != was.relay)
  {
  }

  // What an update of one object brings.
  datatype Report = Report(aoi: Area, time: nat, relay: Option<Id>, owned: bool)

  function After(m: Matcher, id: Id, reports: seq<Report>, n: nat): Matcher
    requires n <= |reports|
  {
    if n == 0 then m
    else
      var r := reports[n - 1];
      Updated(After(m, id, reports, n - 1), id, r.aoi, r.time, r.relay, r.owned)
  }

  predicate Heeded(m: Matcher, id: Id, reports: seq<Report>, k: nat)
    requires k < |reports|
  {
    Accepts(After(m, id, reports, k), id, reports[k].time)
  }

  // The recorded time is that of one of the timed reports that were heeded, or
  // the first, and none of these is later.
  lemma {:induction false} TimeIsLatest(m: Matcher, id: Id, reports: seq<Report>, n: nat)
    requires n <= |reports| && id in m.subscriptions
    ensures id in After(m, id, reports, n).subscriptions
    ensures var time := After(m, id, reports, n).subscriptions[id].time;
            && m.subscriptions[id].time <= time
            && (time == m.subscriptions[id].time || exists k :: 0 <= k < n && reports[k].time == time)
            && forall k :: 0 <= k < n ==> reports[k].time <= time
  {
    if n > 0 {
      TimeIsLatest(m, id, reports, n - 1);
    }
  }

  /** Over any updates of an object, one is heeded exactly when it has no time or
      none before it was later. */
  lemma HeededIff(m: Matcher, id: Id, reports: seq<Report>, k: nat)
    requires k < |reports| && id in m.subscriptions
    ensures Heeded(m, id, reports, k) <==>
            || reports[k].time == 0
            || (m.subscriptions[id].time <= reports[k].time
                && forall j :: 0 <= j < k ==> reports[j].time <= reports[k].time)
  {
    TimeIsLatest(m, id, reports, k);
  }

  /** The object is where the last update heeded says. */
  lemma {:induction false} LastHeededCounts(m: Matcher, id: Id, reports: seq<Report>, k: nat, n: nat)
    requires k < n <= |reports| && Heeded(m, id, reports, k)
    requires forall j :: k < j < n ==> !Heeded(m, id, reports, j)
    ensures id in After(m, id, reports, n).subscriptions
    ensures After(m, id, reports, n).subscriptions[id].aoi.center == reports[k].aoi.center
  {
    if k < n - 1 {
      LastHeededCounts(m, id, reports, k, n - 1);
      assert !Heeded(m, id, reports, n - 1);
    }
  }

  // ---------------------------------------------------------------- copies

  // Objects on record, in order.
  function OnRecord(m: Matcher, list: seq<Id>): seq<Id> {
    if list == [] then []
    else (if list[0] in m.subscriptions then [list[0]] else []) + OnRecord(m, list[1..])
  }

  lemma {:induction false} OnRecordSnoc(m: Matcher, list: seq<Id>, id: Id)
    ensures OnRecord(m, list + [id]) == OnRecord(m, list) + if id in m.subscriptions then [id] else []
  {
    if list == [] {
      assert [id][1..] == [];
    } else {
      assert (list + [id])[1..] == list[1..] + [id];
      OnRecordSnoc(m, list[1..], id);
    }
  }

  lemma {:induction false} KnownIs(m: Matcher, list: seq<Id>, n: nat)
    requires n <= |list|
    ensures KnownOf(m, list, n) == OnRecord(m, list[..n])
  {
    if n > 0 {
      KnownIs(m, list, n - 1);
      assert list[..n] == list[..n - 1] + [list[n - 1]];
      OnRecordSnoc(m, list[..n - 1], list[n - 1]);
    }
  }

  /** A transfer to a known neighbour sends the objects on record, in list order,
      up to their number modulo 256; it sends them all exactly when there are
      fewer than 256.  A transfer to anybody else sends nothing. */
  lemma {:induction false} TransferIs(m: Matcher, target: Id, list: seq<Id>, updateOnly: bool)
    ensures var sent, known := Transfer(m, target, list, updateOnly), OnRecord(m, list);
            if target !in m.neighbors then sent == []
            else
              && |sent| == |known| % 256
              && (|sent| == |known| <==> |known| < 256)
              && forall i :: 0 <= i < |sent| ==>
                   sent[i] == if updateOnly then Update(known[i], target) else Full(known[i], target)
  {
    KnownIs(m, list, |list|);
    assert list[..|list|] == list;
  }

  /** A copy that is not an update sends every object in full and records
      nothing. */
  lemma FullCopyRecordsNothing(m: Matcher, target: Id, list: seq<Id>)
    ensures var c := Copy(m, target, list, false);
            && c.matcher == m
            && (GetsThrough(m, target, list) ==>
                  |c.sent| == |list| && forall i :: 0 <= i < |list| ==> c.sent[i] == Full(list[i], target))
  {
    if GetsThrough(m, target, list) {
      WholeListIsSent(m, target, list, false);
    }
  }

  /** An update that gets through sends each object of the list once for each time
      it is listed: in full the first time it is listed, if it was not recorded,
      and as an update otherwise; afterwards all of them are recorded, and nothing
      else is. */
  lemma UpdateCopySends(m: Matcher, target: Id, list: seq<Id>, id: Id)
    requires GetsThrough(m, target, list)
    ensures var c := Copy(m, target, list, true);
            && |c.sent| == |list|
            && (Full(id, target) in c.sent <==> id in list && !Recorded(m, id, target))
            && multiset(c.sent)[Full(id, target)] <= 1
            && multiset(c.sent)[Full(id, target)] + multiset(c.sent)[Update(id, target)] == multiset(list)[id]
            && forall o: Id, other: Id :: Recorded(c.matcher, o, other) <==>
                 Recorded(m, o, other) || (other == target && o in list)
  {
    SplitIsAPartition(m, target, list);
    SplitParts(m, target, list, |list|);
    assert list[..|list|] == list;
    var s := SplitFirst(m, target, list, |list|);
    PartsGetThrough(m, s, target, list);
    WholeListIsSent(s.matcher, target, s.full, false);
    WholeListIsSent(s.matcher, target, s.update, true);
    CountEntries(Entries(s.full, target, false), s.full, target, false, id);
    CountEntries(Entries(s.update, target, true), s.update, target, true, id);
    NoRepeatsCount(s.full, id);
    forall o: Id, other: Id
      ensures Recorded(s.matcher, o, other) <==> Recorded(m, o, other) || (other == target && o in list)
    {
      RecordedAfter(m, target, list, |list|, o, other);
    }
  }

  lemma PartsGetThrough(m: Matcher, s: Split, target: Id, list: seq<Id>)
    requires GetsThrough(m, target, list) && PartsOf(m, s, target, list)
    ensures GetsThrough(s.matcher, target, s.full) && GetsThrough(s.matcher, target, s.update)
    ensures |s.full| + |s.update| == |list|
  {
    assert |multiset(list)| == |multiset(s.full) + multiset(s.update)|;
    forall i | 0 <= i < |s.full|
      ensures s.full[i] in m.subscriptions
    {
      assert s.full[i] in multiset(s.full) && s.full[i] in multiset(list) && s.full[i] in list;
    }
    forall i | 0 <= i < |s.update|
      ensures s.update[i] in m.subscriptions
    {
      assert s.update[i] in multiset(s.update) && s.update[i] in multiset(list) && s.update[i] in list;
    }
  }

  lemma LastApart<T>(list: seq<T>)
    requires list != []
    ensures multiset(list) == multiset(list[..|list| - 1]) + multiset{list[|list| - 1]}
  {
    assert list == list[..|list| - 1] + [list[|list| - 1]];
  }

  lemma {:induction false} CountEntries(es: seq<Entry>, ids: seq<Id>, target: Id, updateOnly: bool, id: Id)
    requires |es| == |ids| && forall i :: 0 <= i < |es| ==> es[i] == EntryOf(ids[i], target, updateOnly)
    ensures multiset(es)[EntryOf(id, target, updateOnly)] == multiset(ids)[id]
    ensures multiset(es)[EntryOf(id, target, !updateOnly)] == 0
  {
    if ids != [] {
      var n := |ids| - 1;
      CountEntries(es[..n], ids[..n], target, updateOnly, id);
      LastApart(es);
      LastApart(ids);
    }
  }

  lemma {:induction false} NoRepeatsCount(ids: seq<Id>, id: Id)
    requires NoRepeats(ids)
    ensures multiset(ids)[id] == if id in ids then 1 else 0
  {
    if ids != [] {
      var before, last := ids[..|ids| - 1], ids[|ids| - 1];
      NoRepeatsCount(before, id);
      assert ids == before + [last];
      assert last !in before;
    }
  }
}
