/** Copies of subscriptions sent to neighbouring matchers
    (VAST/VASTMatcher.cpp): the record of who has had a full copy, and what is
    sent in full and what as an update. */
module Replicas {
  import opened Options
  import opened Sequences

  type Id = nat

  const LISTSIZE_RANGE := 256   // a list's length travels as one byte

  datatype Area = Area(center: nat, radius: nat, height: nat)

  datatype Subscription = Subscription(aoi: Area, time: nat, relay: Id, dirty: bool)

  // What a matcher knows: its neighbours, the subscriptions, and for each object
  // the neighbours recorded as having a full copy.
  datatype Matcher = Matcher(
    neighbors: set<Id>, subscriptions: map<Id, Subscription>, replicas: map<Id, set<Id>>)

  // What reaches a neighbour about one object.
  datatype Entry = Full(id: Id, target: Id) | Update(id: Id, target: Id)

  function EntryOf(id: Id, target: Id, updateOnly: bool): Entry {
    if updateOnly then Update(id, target) else Full(id, target)
  }

  // The objects of a list that are on record, among the first n.
  function KnownOf(m: Matcher, list: seq<Id>, n: nat): (r: seq<Id>)
    requires n <= |list|
    ensures |r| <= n
  {
    if n == 0 then []
    else KnownOf(m, list, n - 1) + if list[n - 1] in m.subscriptions then [list[n - 1]] else []
  }

  function Entries(ids: seq<Id>, target: Id, updateOnly: bool): (r: seq<Entry>)
    ensures |r| == |ids| && forall i :: 0 <= i < |ids| ==> r[i] == EntryOf(ids[i], target, updateOnly)
  {
    if ids == [] then []
    else Entries(ids[..|ids| - 1], target, updateOnly) + [EntryOf(ids[|ids| - 1], target, updateOnly)]
  }

  // The count is kept in one byte: that many are read, and none is sent at zero.
  function Transfer(m: Matcher, target: Id, list: seq<Id>, updateOnly: bool): seq<Entry> {
    if target !in m.neighbors then []
    else
      var known := KnownOf(m, list, |list|);
      Entries(known[..|known| % LISTSIZE_RANGE], target, updateOnly)
  }

  predicate Recorded(m: Matcher, id: Id, target: Id) {
    id in m.replicas && target in m.replicas[id]
  }

  function Record(m: Matcher, id: Id, target: Id): Matcher {
    m.(replicas := m.replicas[id := (if id in m.replicas then m.replicas[id] else {}) + {target}])
  }

  // A list taken apart: those to be copied in full, and those to be updated.
  datatype Split = Split(matcher: Matcher, full: seq<Id>, update: seq<Id>)

  function SplitFirst(m: Matcher, target: Id, list: seq<Id>, n: nat): Split
    requires n <= |list|
  {
    if n == 0 then Split(m, [], [])
    else
      SplitOne(SplitFirst(m, target, list, n - 1), target, list[n - 1])
  }

  function SplitOne(s: Split, target: Id, id: Id): Split {
    if Recorded(s.matcher, id, target) then s.(update := s.update + [id])
    else Split(Record(s.matcher, id, target), s.full + [id], s.update)
  }

  datatype Copied = Copied(matcher: Matcher, sent: seq<Entry>)

  function Copy(m: Matcher, target: Id, list: seq<Id>, updateOnly: bool): Copied {
    if !updateOnly then Copied(m, Transfer(m, target, list, false))
    else
      var s := SplitFirst(m, target, list, |list|);
      Copied(s.matcher, Transfer(s.matcher, target, s.full, false) + Transfer(s.matcher, target, s.update, true))
  }

  // A new area, as far as it is given.
  function Reshaped(a: Area, b: Area): Area {
    Area(b.center, if b.radius != 0 then b.radius else a.radius, if b.height != 0 then b.height else a.height)
  }

  // The record of an object is cleared when its owner learns of a new relay.
  function Updated(m: Matcher, id: Id, aoi: Area, time: nat, relay: Option<Id>, owned: bool): Matcher {
    if id !in m.subscriptions || (time != 0 && time < m.subscriptions[id].time) then m
    else
      var s := m.subscriptions[id];
      var moved := relay.Some? && relay.value != s.relay;
      m.(subscriptions := m.subscriptions[id := Subscription(Reshaped(s.aoi, aoi), if time != 0 then time else s.time,
                                                             if moved then relay.value else s.relay, true)],
         replicas := if moved && owned then m.replicas - {id} else m.replicas)
  }

  function RemoveSubscription(m: Matcher, id: Id): Matcher {
    m.(subscriptions := m.subscriptions - {id}, replicas := m.replicas - {id})
  }

  // ---------------------------------------------------------------- taking a list apart

  // `done` has been taken apart into s.
  ghost predicate PartsOf(m: Matcher, s: Split, target: Id, done: seq<Id>) {
    && multiset(done) == multiset(s.full) + multiset(s.update)
    && (forall id :: id in s.full <==> id in done && !Recorded(m, id, target))
    && s.matcher.subscriptions == m.subscriptions && s.matcher.neighbors == m.neighbors
  }

  lemma PartsGrow(m: Matcher, s: Split, target: Id, done: seq<Id>, id: Id)
    requires PartsOf(m, s, target, done)
    requires Recorded(s.matcher, id, target) <==> Recorded(m, id, target) || id in done
    ensures PartsOf(m, SplitOne(s, target, id), target, done + [id])
  {
  }

  lemma {:induction false} SplitParts(m: Matcher, target: Id, list: seq<Id>, n: nat)
    requires n <= |list|
    ensures PartsOf(m, SplitFirst(m, target, list, n), target, list[..n])
  {
    if n > 0 {
      var before, last := n - 1, list[n - 1];
      SplitParts(m, target, list, before);
      RecordedAfter(m, target, list, before, last, target);
      var s, done := SplitFirst(m, target, list, before), list[..before];
      assert SplitFirst(m, target, list, n) == SplitOne(s, target, last);
      assert list[..n] == done + [last];
      PartsGrow(m, s, target, done, last);
    }
  }

  lemma {:induction false} RecordedAfter(m: Matcher, target: Id, list: seq<Id>, n: nat, id: Id, other: Id)
    requires n <= |list|
    ensures Recorded(SplitFirst(m, target, list, n).matcher, id, other) <==>
            Recorded(m, id, other) || (other == target && id in list[..n])
  {
    if n > 0 {
      RecordedAfter(m, target, list, n - 1, id, other);
      RecordedAfter(m, target, list, n - 1, list[n - 1], target);
      assert list[..n] == list[..n - 1] + [list[n - 1]];
    }
  }

  lemma {:induction false} FullOnce(m: Matcher, target: Id, list: seq<Id>, n: nat)
    requires n <= |list|
    ensures NoRepeats(SplitFirst(m, target, list, n).full)
    ensures forall id :: id in SplitFirst(m, target, list, n).full ==>
              Recorded(SplitFirst(m, target, list, n).matcher, id, target)
  {
    if n > 0 {
      FullOnce(m, target, list, n - 1);
      var s := SplitFirst(m, target, list, n - 1);
      assert forall i :: 0 <= i < |s.full| ==> s.full[i] in s.full;
    }
  }

  /** Every object of a list is copied in full or updated, once for each time it
      is listed; those copied in full are the ones not recorded before, each
      once, and afterwards all of them are recorded. */
  lemma {:induction false} SplitIsAPartition(m: Matcher, target: Id, list: seq<Id>)
    ensures var s := SplitFirst(m, target, list, |list|);
            && multiset(list) == multiset(s.full) + multiset(s.update)
            && (forall id :: id in s.full <==> id in list && !Recorded(m, id, target))
            && NoRepeats(s.full)
            && forall id :: id in list ==> Recorded(s.matcher, id, target)
  {
    assert list[..|list|] == list;
    SplitParts(m, target, list, |list|);
    FullOnce(m, target, list, |list|);
    forall id | id in list
      ensures Recorded(SplitFirst(m, target, list, |list|).matcher, id, target)
    {
      RecordedAfter(m, target, list, |list|, id, target);
    }
  }

  // ---------------------------------------------------------------- what is recorded and what is true

  // The pairs of an object and a neighbour to which it has been copied in full
  // since its record was last cleared.
  type Given = set<(Id, Id)>

  // Every recorded full copy has really been sent.
  ghost predicate Faithful(m: Matcher, given: Given) {
    forall id: Id, target: Id :: Recorded(m, id, target) ==> (id, target) in given
  }

  function GivenBy(sent: seq<Entry>): Given {
    if sent == [] then {}
    else
      var e := sent[|sent| - 1];
      GivenBy(sent[..|sent| - 1]) + if e.Full? then {(e.id, e.target)} else {}
  }

  lemma {:induction false} GivenByIs(sent: seq<Entry>, id: Id, target: Id)
    ensures (id, target) in GivenBy(sent) <==> Full(id, target) in sent
  {
    if sent != [] {
      GivenByIs(sent[..|sent| - 1], id, target);
      assert sent == sent[..|sent| - 1] + [sent[|sent| - 1]];
    }
  }

  // A copy of a list gets through whole.
  predicate GetsThrough(m: Matcher, target: Id, list: seq<Id>) {
    && target in m.neighbors && |list| < LISTSIZE_RANGE
    && forall i :: 0 <= i < |list| ==> list[i] in m.subscriptions
  }

  lemma {:induction false} AllKnown(m: Matcher, list: seq<Id>, n: nat)
    requires n <= |list|
    ensures (forall i :: 0 <= i < n ==> list[i] in m.subscriptions) ==> KnownOf(m, list, n) == list[..n]
    ensures var known := KnownOf(m, list, n);
            forall i :: 0 <= i < |known| ==> known[i] in list[..n] && known[i] in m.subscriptions
  {
    if n > 0 {
      AllKnown(m, list, n - 1);
      assert list[..n] == list[..n - 1] + [list[n - 1]];
    }
  }

  lemma {:induction false} WholeListIsSent(m: Matcher, target: Id, list: seq<Id>, updateOnly: bool)
    requires GetsThrough(m, target, list)
    ensures Transfer(m, target, list, updateOnly) == Entries(list, target, updateOnly)
  {
    AllKnown(m, list, |list|);
    var known := KnownOf(m, list, |list|);
    assert known == list[..|list|] == list;
    assert |known| % LISTSIZE_RANGE == |known|;
    assert known[..|known|] == list;
  }

  // What is sent in one call, and of what kind.
  lemma SentIs(m: Matcher, target: Id, list: seq<Id>, updateOnly: bool, e: Entry)
    requires e in Transfer(m, target, list, updateOnly)
    ensures e == EntryOf(e.id, target, updateOnly) && e.id in list && e.id in m.subscriptions && target in m.neighbors
  {
    AllKnown(m, list, |list|);
    var known := KnownOf(m, list, |list|);
    var i :| 0 <= i < |Transfer(m, target, list, updateOnly)| && Transfer(m, target, list, updateOnly)[i] == e;
    assert list[..|list|] == list;
    assert known[i] == e.id;
  }

  // What an update-only call sends.
  function FullPart(m: Matcher, target: Id, list: seq<Id>): seq<Id> {
    SplitFirst(m, target, list, |list|).full
  }

  // Full copies of the full part are the only full copies sent.
  lemma CopyGives(m: Matcher, target: Id, list: seq<Id>, id: Id, other: Id)
    ensures (id, other) in GivenBy(Copy(m, target, list, true).sent) <==>
            Full(id, other) in Transfer(m, target, FullPart(m, target, list), false)
  {
    SplitParts(m, target, list, |list|);
    var s := SplitFirst(m, target, list, |list|);
    var a, b := Transfer(s.matcher, target, s.full, false), Transfer(s.matcher, target, s.update, true);
    GivenByIs(a + b, id, other);
    TransferAlike(m, s.matcher, target, s.full, false);
    if Full(id, other) in b {
      SentIs(s.matcher, target, s.update, true, Full(id, other));
    }
  }

  // Only neighbours and subscriptions matter to what is sent.
  lemma TransferAlike(m: Matcher, n: Matcher, target: Id, list: seq<Id>, updateOnly: bool)
    requires m.neighbors == n.neighbors && m.subscriptions == n.subscriptions
    ensures Transfer(m, target, list, updateOnly) == Transfer(n, target, list, updateOnly)
  {
    KnownAlike(m, n, list, |list|);
  }

  lemma {:induction false} KnownAlike(m: Matcher, n: Matcher, list: seq<Id>, k: nat)
    requires m.subscriptions == n.subscriptions && k <= |list|
    ensures KnownOf(m, list, k) == KnownOf(n, list, k)
  {
    if k > 0 {
      KnownAlike(m, n, list, k - 1);
    }
  }

  // The record stays faithful when every object recorded for the first time is
  // really sent in full, or had been before.
  lemma FaithfulIfSent(m: Matcher, given: Given, target: Id, list: seq<Id>)
    requires Faithful(m, given)
    ensures Faithful(Copy(m, target, list, true).matcher, given + GivenBy(Copy(m, target, list, true).sent)) <==>
            forall id :: id in FullPart(m, target, list) ==>
              (id, target) in given || Full(id, target) in Transfer(m, target, FullPart(m, target, list), false)
  {
    var c := Copy(m, target, list, true);
    SplitParts(m, target, list, |list|);
    assert list[..|list|] == list;
    forall id
      ensures id in FullPart(m, target, list) ==> Recorded(c.matcher, id, target)
      ensures (id, target) in GivenBy(c.sent) <==>
              Full(id, target) in Transfer(m, target, FullPart(m, target, list), false)
    {
      RecordedAfter(m, target, list, |list|, id, target);
      CopyGives(m, target, list, id, target);
    }
    forall id, other | Recorded(c.matcher, id, other)
      ensures Recorded(m, id, other) || (other == target && id in FullPart(m, target, list))
    {
      RecordedAfter(m, target, list, |list|, id, other);
    }
  }

  // Whatever gets through whole is sent in full.
  lemma ThroughIsSent(m: Matcher, target: Id, list: seq<Id>, id: Id)
    requires GetsThrough(m, target, list) && id in list
    ensures Full(id, target) in Transfer(m, target, list, false)
  {
    WholeListIsSent(m, target, list, false);
    var i :| 0 <= i < |list| && list[i] == id;
    assert Entries(list, target, false)[i] == Full(id, target);
  }

  // And if all of a list is sent in full, it gets through whole.
  lemma SentIsThrough(m: Matcher, target: Id, list: seq<Id>)
    requires list != [] && NoRepeats(list)
    requires forall id :: id in list ==> Full(id, target) in Transfer(m, target, list, false)
    ensures GetsThrough(m, target, list)
  {
    forall i | 0 <= i < |list|
      ensures list[i] in m.subscriptions && target in m.neighbors
    {
      assert list[i] in list;
      SentIs(m, target, list, false, Full(list[i], target));
    }
    AllKnown(m, list, |list|);
    assert KnownOf(m, list, |list|) == list[..|list|] == list;
    var n, last := |list| % LISTSIZE_RANGE, list[|list| - 1];
    assert last in list;
    var k :| 0 <= k < n && Entries(list[..n], target, false)[k] == Full(last, target);
    assert list[k] == last;
  }

  /** What an update-only copy has to do to keep the record faithful, of objects
      never copied before: record nothing new, or go to a known neighbour, about
      objects on record, fewer than 256 of them. */
  lemma CopyIsFaithfulIff(m: Matcher, given: Given, target: Id, list: seq<Id>)
    requires Faithful(m, given) && forall id :: id in FullPart(m, target, list) ==> (id, target) !in given
    ensures Faithful(Copy(m, target, list, true).matcher, given + GivenBy(Copy(m, target, list, true).sent)) <==>
            FullPart(m, target, list) == [] || GetsThrough(m, target, FullPart(m, target, list))
  {
    var full := FullPart(m, target, list);
    FaithfulIfSent(m, given, target, list);
    FullOnce(m, target, list, |list|);
    if full != [] && forall id :: id in full ==> Full(id, target) in Transfer(m, target, full, false) {
      SentIsThrough(m, target, full);
    }
    if full == [] || GetsThrough(m, target, full) {
      GettingThroughIsFaithful(m, given, target, list);
    }
  }

  /** Under that guard the record stays faithful whatever was copied before. */
  lemma GettingThroughIsFaithful(m: Matcher, given: Given, target: Id, list: seq<Id>)
    requires Faithful(m, given)
    requires FullPart(m, target, list) == [] || GetsThrough(m, target, FullPart(m, target, list))
    ensures Faithful(Copy(m, target, list, true).matcher, given + GivenBy(Copy(m, target, list, true).sent))
  {
    var full := FullPart(m, target, list);
    FaithfulIfSent(m, given, target, list);
    forall id | id in full
      ensures Full(id, target) in Transfer(m, target, full, false)
    {
      ThroughIsSent(m, target, full, id);
    }
  }

  /** But a copy to an unknown matcher records what it has not sent, and the next
      one, when the matcher is known, is an update without a copy before it. */
  lemma UnknownTargetIsRecorded(m: Matcher, target: Id, id: Id, s: Subscription)
    requires target !in m.neighbors && !Recorded(m, id, target)
    ensures var m1 := Copy(m, target, [id], true).matcher;
            var m2 := m1.(neighbors := m1.neighbors + {target}, subscriptions := m1.subscriptions[id := s]);
            && Copy(m, target, [id], true).sent == []
            && Copy(m2, target, [id], true).sent == [Update(id, target)]
  {
    var one := SplitFirst(m, target, [id], 1);
    assert SplitFirst(m, target, [id], 0) == Split(m, [], []);
    assert one == Split(Record(m, id, target), [id], []);
    var m1 := Copy(m, target, [id], true).matcher;
    var m2 := m1.(neighbors := m1.neighbors + {target}, subscriptions := m1.subscriptions[id := s]);
    assert SplitFirst(m2, target, [id], 0) == Split(m2, [], []);
    assert SplitFirst(m2, target, [id], 1) == Split(m2, [], [id]);
    WholeListIsSent(m2, target, [id], true);
    WholeListIsSent(m2, target, [], false);
  }

  // ---------------------------------------------------------------- runs

  datatype Step =
    | DoCopy(target: Id, list: seq<Id>, updateOnly: bool)
    | DoUpdate(id: Id, aoi: Area, time: nat, relay: Option<Id>, owned: bool)
    | DoInsert(id: Id, sub: Subscription)
    | DoRemove(id: Id)
    | DoMeet(neighbors: set<Id>)

  function Apply(m: Matcher, step: Step): Copied {
    match step
    case DoCopy(target, list, updateOnly) => Copy(m, target, list, updateOnly)
    case DoUpdate(id, aoi, time, relay, owned) => Copied(Updated(m, id, aoi, time, relay, owned), [])
    case DoInsert(id, sub) => Copied(m.(subscriptions := m.subscriptions[id := sub]), [])
    case DoRemove(id) => Copied(RemoveSubscription(m, id), [])
    case DoMeet(neighbors) => Copied(m.(neighbors := neighbors), [])
  }

  // The object whose record a step clears.
  predicate Clears(m: Matcher, step: Step, id: Id) {
    match step
    case DoUpdate(o, _, _, _, _) => o == id && id in m.replicas && id !in Apply(m, step).matcher.replicas
    case DoRemove(o) => o == id
    case _ => false
  }

  function Forget(given: Given, m: Matcher, step: Step): Given {
    set p | p in given && !Clears(m, step, p.0)
  }

  // Copies that are meant to be recorded get through.
  predicate Sound(m: Matcher, step: Step) {
    step.DoCopy? && step.updateOnly ==>
      var full := FullPart(m, step.target, step.list);
      full == [] || GetsThrough(m, step.target, full)
  }

  datatype Sys = Sys(matcher: Matcher, given: Given)

  function Next(s: Sys, step: Step): Sys {
    var c := Apply(s.matcher, step);
    Sys(c.matcher, Forget(s.given, s.matcher, step) + GivenBy(c.sent))
  }

  lemma StepKeepsFaithful(s: Sys, step: Step)
    requires Faithful(s.matcher, s.given) && Sound(s.matcher, step)
    ensures Faithful(Next(s, step).matcher, Next(s, step).given)
  {
    match step
    case DoCopy(target, list, updateOnly) => {
      assert Forget(s.given, s.matcher, step) == s.given;
      if updateOnly {
        GettingThroughIsFaithful(s.matcher, s.given, target, list);
      }
    }
    case _ => {
      var n := Next(s, step);
      forall id: Id, target: Id | Recorded(n.matcher, id, target)
        ensures (id, target) in n.given
      {
        assert Recorded(s.matcher, id, target);
      }
    }
  }

  ghost predicate Runs(ss: seq<Sys>, steps: seq<Step>) {
    && |ss| == |steps| + 1 && ss[0].matcher.replicas == map[] && ss[0].given == {}
    && forall i :: 0 <= i < |steps| ==> Sound(ss[i].matcher, steps[i]) && ss[i + 1] == Next(ss[i], steps[i])
  }

  lemma {:induction false} RunKeepsFaithful(ss: seq<Sys>, steps: seq<Step>, n: nat)
    requires Runs(ss, steps) && n < |ss|
    ensures Faithful(ss[n].matcher, ss[n].given)
  {
    if n > 0 {
      RunKeepsFaithful(ss, steps, n - 1);
      StepKeepsFaithful(ss[n - 1], steps[n - 1]);
    }
  }

  // An update goes only to somebody recorded, before the call or by it.
  lemma UpdatesAreRecorded(m: Matcher, target: Id, list: seq<Id>, id: Id, other: Id)
    requires Update(id, other) in Copy(m, target, list, true).sent
    ensures other == target && (Recorded(m, id, target) || id in FullPart(m, target, list))
  {
    var s := SplitFirst(m, target, list, |list|);
    SplitParts(m, target, list, |list|);
    assert list[..|list|] == list;
    if Update(id, other) in Transfer(s.matcher, target, s.full, false) {
      SentIs(s.matcher, target, s.full, false, Update(id, other));
    }
    SentIs(s.matcher, target, s.update, true, Update(id, other));
    assert id in multiset(s.update);
    assert id in multiset(list);
  }

  // Where an entry about an object and a neighbour stands in what a call sends.
  lemma FullComesFirst(m: Matcher, target: Id, list: seq<Id>, i: nat, j: nat)
    requires i < |Copy(m, target, list, true).sent| && j < |Copy(m, target, list, true).sent|
    requires Copy(m, target, list, true).sent[i].Full? && Copy(m, target, list, true).sent[j].Update?
    ensures i < j
  {
  }

  /** In every run whose recorded copies get through, an update of an object
      reaches a neighbour only after a full copy of it has, since the record was
      last cleared; if the full copy is sent by the same call, it is sent first. */
  lemma FullBeforeUpdate(ss: seq<Sys>, steps: seq<Step>, n: nat, id: Id, target: Id)
    requires Runs(ss, steps) && n < |steps|
    requires Update(id, target) in Apply(ss[n].matcher, steps[n]).sent
    ensures var sent := Apply(ss[n].matcher, steps[n]).sent;
            && ((id, target) in ss[n].given || Full(id, target) in sent)
            && forall i, j | 0 <= i < |sent| && 0 <= j < |sent| ::
                 sent[i] == Full(id, target) && sent[j] == Update(id, target) ==> i < j
  {
    RunKeepsFaithful(ss, steps, n);
    var m, step := ss[n].matcher, steps[n];
    if step.updateOnly {
      var sent := Apply(m, step).sent;
      forall i, j | 0 <= i < |sent| && 0 <= j < |sent| && sent[i] == Full(id, target) && sent[j] == Update(id, target)
        ensures i < j
      {
        FullComesFirst(m, step.target, step.list, i, j);
      }
      UpdatesAreRecorded(m, step.target, step.list, id, target);
      if !Recorded(m, id, target) {
        GettingThroughIsFaithful(m, ss[n].given, target, step.list);
        RecordedAfter(m, target, step.list, |step.list|, id, target);
        SplitParts(m, target, step.list, |step.list|);
        GivenByIs(Apply(m, step).sent, id, target);
      }
    } else {
      SentIs(m, step.target, step.list, false, Update(id, target));
    }
  }

  /** When the owner of an object learns of its new relay, the next copy to any
      neighbour that gets through sends it in full, new relay and all. */
  lemma RelayChangeForcesFullCopy(m: Matcher, id: Id, aoi: Area, time: nat, relay: Id, target: Id, list: seq<Id>)
    requires id in m.subscriptions && relay != m.subscriptions[id].relay
    requires time == 0 || m.subscriptions[id].time <= time
    requires id in list
    ensures var n := Updated(m, id, aoi, time, Some(relay), true);
            && n.subscriptions[id].relay == relay && id in FullPart(n, target, list)
            && (GetsThrough(n, target, FullPart(n, target, list)) ==>
                  Full(id, target) in Copy(n, target, list, true).sent)
  {
    var n := Updated(m, id, aoi, time, Some(relay), true);
    SplitParts(n, target, list, |list|);
    assert list[..|list|] == list;
    if GetsThrough(n, target, FullPart(n, target, list)) {
      ThroughIsSent(n, target, FullPart(n, target, list), id);
      CopyGives(n, target, list, id, target);
      GivenByIs(Copy(n, target, list, true).sent, id, target);
    }
  }

  // ---------------------------------------------------------------- the class

  lemma {:induction false} SplitNext(m: Matcher, target: Id, list: seq<Id>, n: nat, next: nat)
    requires n < |list| && next == n + 1
    ensures var s, id := SplitFirst(m, target, list, n), list[n];
            SplitFirst(m, target, list, next) ==
            if Recorded(s.matcher, id, target) then s.(update := s.update + [id])
            else Split(Record(s.matcher, id, target), s.full + [id], s.update)
  {
  }

  class ReplicaMatcher {
    var neighbors: set<Id>
    var subscriptions: map<Id, Subscription>
    var replicas: map<Id, set<Id>>

    function State(): Matcher
      reads this
    {
      Matcher(neighbors, subscriptions, replicas)
    }

    method UpdateSubscription(id: Id, aoi: Area, time: nat, relay: Option<Id>, owned: bool) returns (ok: bool)
      modifies this
      ensures State() == Updated(old(State()), id, aoi, time, relay, owned)
      ensures ok <==> id in old(subscriptions) && (time == 0 || old(subscriptions)[id].time <= time)
    {
      if id !in subscriptions {
        return false;
      }
      var s := subscriptions[id];
      if time != 0 {
        if time < s.time {
          return false;
        }
        s := s.(time := time);
      }
      s := s.(aoi := s.aoi.(center := aoi.center));
      if aoi.radius != 0 {
        s := s.(aoi := s.aoi.(radius := aoi.radius));
      }
      if aoi.height != 0 {
        s := s.(aoi := s.aoi.(height := aoi.height));
      }
      s := s.(dirty := true);
      if relay.Some? && s.relay != relay.value {
        s := s.(relay := relay.value);
        if owned {
          replicas := replicas - {id};
        }
      }
      subscriptions := subscriptions[id := s];
      return true;
    }

    // The message to a neighbour, and the count its sender makes of it.
    method TransferSubscription(target: Id, list: seq<Id>, updateOnly: bool) returns (sent: seq<Entry>, count: nat)
      ensures sent == Transfer(State(), target, list, updateOnly) && count == |sent|
    {
      if target !in neighbors {
        return [], 0;
      }
      var stored: seq<Id> := [];
      count := 0;
      var i := 0;
      while i < |list|
        invariant 0 <= i <= |list| && stored == KnownOf(State(), list, i) && count == |stored| % LISTSIZE_RANGE
      {
        if list[i] in subscriptions {
          stored := stored + [list[i]];
          count := (count + 1) % LISTSIZE_RANGE;
        }
        i := i + 1;
      }
      sent := [];
      if count > 0 {
        sent := Entries(stored[..count], target, updateOnly);
      }
    }

    // The list taken apart, and what is copied in full recorded.
    method SplitList(target: Id, list: seq<Id>) returns (full: seq<Id>, update: seq<Id>)
      modifies `replicas
      ensures Split(State(), full, update) == SplitFirst(old(State()), target, list, |list|)
    {
      full, update := [], [];
      var i := 0;
      while i < |list|
        invariant 0 <= i <= |list|
        invariant Split(State(), full, update) == SplitFirst(old(State()), target, list, i)
      {
        var id := list[i];
        if id !in replicas {
          replicas := replicas[id := {}];
        }
        if target !in replicas[id] {
          full := full + [id];
          replicas := replicas[id := replicas[id] + {target}];
        } else {
          update := update + [id];
        }
        var next := i + 1;
        SplitNext(old(State()), target, list, i, next);
        i := next;
      }
    }

    method CopyObject(target: Id, list: seq<Id>, updateOnly: bool) returns (sent: seq<Entry>, count: nat)
      modifies `replicas
      ensures Copied(State(), sent) == Copy(old(State()), target, list, updateOnly) && count == |sent|
    {
      var full: seq<Id>, update: seq<Id> := list, [];
      if updateOnly {
        full, update := SplitList(target, list);
      }
      sent, count := [], 0;
      if |full| > 0 {
        sent, count := TransferSubscription(target, full, false);
      }
      if |update| > 0 {
        var more, n := TransferSubscription(target, update, true);
        sent, count := sent + more, count + n;
      }
    }
  }
}
