/** The peer as the program keeps it: maps updated in place, walked in id order.
    Each method is proved equal to a function on the maps' values, and those
    functions are proved to act on every object exactly as the slice functions
    of module Ownership say, leaving all other objects alone. */
module VsoPeers {
  import opened Options
  import opened OrderedKeys
  import opened Ownership

  const LISTSIZE_RANGE := 256   // list lengths travel as one byte

  function Lookup<V>(m: map<Id, V>, o: Id): Option<V> {
    if o in m then Some(m[o]) else None
  }

  function Put<V>(m: map<Id, V>, o: Id, v: Option<V>): map<Id, V> {
    if v.Some? then m[o := v.value] else m - {o}
  }

  datatype Peer = Peer(objects: map<Id, SharedObject>, transferAt: map<Id, Time>,
                       reclaimAt: map<Id, Time>, transfer: map<Id, Transfer>)
  {
    function SliceOf(o: Id): Slice {
      Slice(Lookup(objects, o), Lookup(transferAt, o), Lookup(reclaimAt, o), Lookup(transfer, o))
    }

    function With(o: Id, s: Slice): (r: Peer)
      ensures r.SliceOf(o) == s
      ensures forall x :: x != o ==> r.SliceOf(x) == SliceOf(x)
      ensures r.objects.Keys == objects.Keys - {o} + if s.obj.Some? then {o} else {}
    {
      Peer(Put(objects, o, s.obj), Put(transferAt, o, s.transferAt),
           Put(reclaimAt, o, s.reclaimAt), Put(transfer, o, s.pending))
    }
  }

  // ---------------------------------------------------------------- the periodic check

  // The check of the first n objects of `keys`: new state and released orders.
  function CheckFirst(self: Id, t: Time, now: Time, views: map<Id, View>, p: Peer, keys: seq<Id>, n: nat)
      : (r: (Peer, seq<Transfer>))
    requires n <= |keys|
    requires forall i :: 0 <= i < |keys| ==> keys[i] in views && keys[i] in p.objects
    ensures r.0.objects.Keys == p.objects.Keys
  {
    if n == 0 then (p, [])
    else
      var (q, sent) := CheckFirst(self, t, now, views, p, keys, n - 1);
      var o := keys[n - 1];
      var c := Check(self, t, now, o, views[o], q.SliceOf(o));
      (q.With(o, c.slice), if c.sent.Some? then sent + [c.sent.value] else sent)
  }

  // The check of all objects, in id order.
  function CheckWhole(self: Id, t: Time, now: Time, views: map<Id, View>, p: Peer): (r: (Peer, seq<Transfer>))
    requires p.objects.Keys <= views.Keys
  {
    var keys := Ascending(p.objects.Keys);
    CheckFirst(self, t, now, views, p, keys, |keys|)
  }

  // One of the first n keys.
  predicate Among(keys: seq<Id>, n: nat, o: Id)
    requires n <= |keys|
  {
    exists i :: 0 <= i < n && keys[i] == o
  }

  lemma AmongNext(keys: seq<Id>, n: nat, next: nat, o: Id)
    requires n < |keys| && next == n + 1
    ensures Among(keys, next, o) <==> Among(keys, n, o) || o == keys[n]
    ensures Ascends(keys) && Among(keys, n, o) ==> o != keys[n]
  {
    if o == keys[n] {
      assert 0 <= n < next;
    }
  }

  /** Checking object by object is checking each object of the old state. */
  lemma {:induction false} CheckFirstIsPointwise(self: Id, t: Time, now: Time, views: map<Id, View>, p: Peer,
                                                 keys: seq<Id>, n: nat, o: Id)
    requires n <= |keys| && Ascends(keys)
    requires forall i :: 0 <= i < |keys| ==> keys[i] in views && keys[i] in p.objects
    ensures Among(keys, n, o) ==> o in views
    ensures CheckFirst(self, t, now, views, p, keys, n).0.SliceOf(o) ==
              if Among(keys, n, o) then Check(self, t, now, o, views[o], p.SliceOf(o)).slice else p.SliceOf(o)
  {
    if n > 0 {
      var before, k := n - 1, keys[n - 1];
      CheckFirstIsPointwise(self, t, now, views, p, keys, before, o);
      AmongNext(keys, before, n, o);
      CheckNext(self, t, now, views, p, keys, before, n, k, o);
    }
  }

  // What checking the next object makes of any object.
  lemma {:induction false} CheckNext(self: Id, t: Time, now: Time, views: map<Id, View>, p: Peer,
                                     keys: seq<Id>, n: nat, next: nat, k: Id, o: Id)
    requires n < |keys| && next == n + 1 && k == keys[n]
    requires forall i :: 0 <= i < |keys| ==> keys[i] in views && keys[i] in p.objects
    ensures k in views && k in p.objects
    ensures var s := CheckFirst(self, t, now, views, p, keys, n).0.SliceOf(o);
            && (o == k ==> s.obj.Some?)
            && CheckFirst(self, t, now, views, p, keys, next).0.SliceOf(o) ==
               if o == k then Check(self, t, now, o, views[o], s).slice else s
  {
  }

  // What the next object adds to the orders.
  lemma {:induction false} CheckNextSends(self: Id, t: Time, now: Time, views: map<Id, View>, p: Peer,
                                          keys: seq<Id>, n: nat, next: nat)
    requires n < |keys| && next == n + 1 && Ascends(keys)
    requires forall i :: 0 <= i < |keys| ==> keys[i] in views && keys[i] in p.objects
    ensures var c := Check(self, t, now, keys[n], views[keys[n]], p.SliceOf(keys[n])).sent;
            && CheckFirst(self, t, now, views, p, keys, next).1 ==
               CheckFirst(self, t, now, views, p, keys, n).1 + (if c.Some? then [c.value] else [])
            && (c.Some? ==> c.value.obj == keys[n])
  {
    CheckFirstIsPointwise(self, t, now, views, p, keys, n, keys[n]);
    AmongNext(keys, n, next, keys[n]);
  }

  // An order that the old slice of one of the first n objects releases.
  predicate Releases(self: Id, t: Time, now: Time, views: map<Id, View>, p: Peer, keys: seq<Id>, n: nat, tr: Transfer)
    requires n <= |keys|
    requires forall i :: 0 <= i < |keys| ==> keys[i] in views && keys[i] in p.objects
  {
    Among(keys, n, tr.obj)
    && Check(self, t, now, tr.obj, views[tr.obj], p.SliceOf(tr.obj)).sent == Some(tr)
  }

  lemma {:induction false} ReleasesNext(self: Id, t: Time, now: Time, views: map<Id, View>, p: Peer,
                                        keys: seq<Id>, n: nat, next: nat, tr: Transfer)
    requires n < |keys| && next == n + 1 && Ascends(keys)
    requires forall i :: 0 <= i < |keys| ==> keys[i] in views && keys[i] in p.objects
    ensures Releases(self, t, now, views, p, keys, next, tr) <==>
            || Releases(self, t, now, views, p, keys, n, tr)
            || Check(self, t, now, keys[n], views[keys[n]], p.SliceOf(keys[n])).sent == Some(tr)
  {
    AmongNext(keys, n, next, tr.obj);
  }

  /** The orders are those the old slices release. */
  lemma {:induction false} CheckFirstSends(self: Id, t: Time, now: Time, views: map<Id, View>, p: Peer,
                                           keys: seq<Id>, n: nat, tr: Transfer)
    requires n <= |keys| && Ascends(keys)
    requires forall i :: 0 <= i < |keys| ==> keys[i] in views && keys[i] in p.objects
    ensures tr in CheckFirst(self, t, now, views, p, keys, n).1 <==> Releases(self, t, now, views, p, keys, n, tr)
  {
    if n > 0 {
      var m := n - 1;
      CheckFirstSends(self, t, now, views, p, keys, m, tr);
      CheckNextSends(self, t, now, views, p, keys, m, n);
      ReleasesNext(self, t, now, views, p, keys, m, n, tr);
    }
  }

  /** Each object is released at most once, in id order. */
  lemma {:induction false} CheckFirstSendsOnce(self: Id, t: Time, now: Time, views: map<Id, View>, p: Peer,
                                               keys: seq<Id>, n: nat)
    requires n <= |keys| && Ascends(keys)
    requires forall i :: 0 <= i < |keys| ==> keys[i] in views && keys[i] in p.objects
    ensures var sent := CheckFirst(self, t, now, views, p, keys, n).1;
            && (forall i, j :: 0 <= i < j < |sent| ==> sent[i].obj < sent[j].obj)
            && forall i :: 0 <= i < |sent| ==> Among(keys, n, sent[i].obj)
  {
    if n > 0 {
      var m := n - 1;
      CheckFirstSendsOnce(self, t, now, views, p, keys, m);
      CheckNextSends(self, t, now, views, p, keys, m, n);
      var sent := CheckFirst(self, t, now, views, p, keys, m).1;
      forall i | 0 <= i < |sent|
        ensures sent[i].obj < keys[m] && Among(keys, n, sent[i].obj)
      {
        AmongNext(keys, m, n, sent[i].obj);
      }
      AmongNext(keys, m, n, keys[m]);
    }
  }

  function AddressedTo(target: Id, trs: seq<Transfer>): (r: seq<Transfer>)
    ensures forall tr :: tr in r <==> tr in trs && tr.newOwner == target
  {
    if trs == [] then []
    else
      var before := AddressedTo(target, trs[..|trs| - 1]);
      var last := trs[|trs| - 1];
      assert trs == trs[..|trs| - 1] + [last];
      if last.newOwner == target then before + [last] else before
  }

  function AddToList(lists: map<Id, seq<Transfer>>, tr: Transfer): map<Id, seq<Transfer>> {
    lists[tr.newOwner := (if tr.newOwner in lists then lists[tr.newOwner] else []) + [tr]]
  }

  // The orders grouped by target.
  function Grouped(all: seq<Transfer>): map<Id, seq<Transfer>> {
    if all == [] then map[] else AddToList(Grouped(all[..|all| - 1]), all[|all| - 1])
  }

  lemma {:induction false} GroupedByTarget(all: seq<Transfer>, target: Id)
    ensures AddressedTo(target, all) == if target in Grouped(all) then Grouped(all)[target] else []
    ensures target in Grouped(all) <==> AddressedTo(target, all) != []
  {
    if all != [] {
      GroupedByTarget(all[..|all| - 1], target);
    }
  }

  // A batch carries its length in one byte and is written up to that length.
  function Written(batch: seq<Transfer>): seq<Transfer> {
    batch[..|batch| % LISTSIZE_RANGE]
  }

  // A batch goes to its target and to the enclosing neighbours.
  datatype Message = Message(targets: set<Id>, orders: seq<Transfer>)

  function MessagesOf(lists: map<Id, seq<Transfer>>, enclosing: set<Id>): map<Id, Message> {
    map target | target in lists :: Message(enclosing + {target}, Written(lists[target]))
  }

  /** One message is addressed to each target with orders and the enclosing
      neighbours.  The target is sent the first of its orders, up to their number
      modulo 256, so all of them if and only if there are fewer than 256. */
  lemma {:induction false} AllOrdersAreSentIff(all: seq<Transfer>, enclosing: set<Id>, target: Id)
    ensures var messages, batch := MessagesOf(Grouped(all), enclosing), AddressedTo(target, all);
            && (target in messages <==> batch != [])
            && (target in messages ==>
                  && messages[target].targets == enclosing + {target}
                  && messages[target].orders == batch[..|batch| % 256]
                  && (messages[target].orders == batch <==> |batch| < 256))
  {
    GroupedByTarget(all, target);
    var batch := AddressedTo(target, all);
    assert |batch| % 256 == |batch| <==> |batch| < 256;
  }

  // ---------------------------------------------------------------- other walks

  function DepartFirst(from: Id, p: Peer, keys: seq<Id>, n: nat): (r: Peer)
    requires n <= |keys|
    ensures r.objects == p.objects && r.transferAt == p.transferAt && r.transfer == p.transfer
  {
    if n == 0 then p
    else
      var q := DepartFirst(from, p, keys, n - 1);
      var o := keys[n - 1];
      if o in q.objects && q.objects[o].closest == from then q.(reclaimAt := q.reclaimAt[o := 0]) else q
  }

  lemma {:induction false} DepartFirstIsPointwise(from: Id, p: Peer, keys: seq<Id>, n: nat, o: Id)
    requires n <= |keys|
    ensures DepartFirst(from, p, keys, n).SliceOf(o) ==
              if Among(keys, n, o) then PeerLeaves(from, p.SliceOf(o)) else p.SliceOf(o)
  {
    if n > 0 {
      DepartFirstIsPointwise(from, p, keys, n - 1, o);
    }
  }

  // The first n orders of a batch, received one after the other.
  function ReceiveFirst(self: Id, joined: bool, now: Time, p: Peer, batch: seq<Transfer>, n: nat)
      : (Peer, seq<Ack>)
    requires n <= |batch|
  {
    if n == 0 then (p, [])
    else
      var (q, acks) := ReceiveFirst(self, joined, now, p, batch, n - 1);
      var tr := batch[n - 1];
      var h := Receive(self, joined, now, tr, q.SliceOf(tr.obj));
      (q.With(tr.obj, h.slice), if h.ack.Some? then acks + [h.ack.value] else acks)
  }

  // The objects to ask for: those handed to this peer that it does not have.
  function Missing(self: Id, p: Peer, batch: seq<Transfer>, n: nat): seq<Id>
    requires n <= |batch|
  {
    if n == 0 then []
    else
      var tr := batch[n - 1];
      Missing(self, p, batch, n - 1) + if tr.newOwner == self && tr.obj !in p.objects then [tr.obj] else []
  }

  // An order among the first n hands this object to this peer.
  predicate HandedOver(self: Id, batch: seq<Transfer>, n: nat, o: Id)
    requires n <= |batch|
  {
    exists i :: 0 <= i < n && batch[i].obj == o && batch[i].newOwner == self
  }

  lemma HandedOverNext(self: Id, batch: seq<Transfer>, n: nat, next: nat, o: Id)
    requires n < |batch| && next == n + 1
    ensures HandedOver(self, batch, next, o) <==>
            HandedOver(self, batch, n, o) || (batch[n].obj == o && batch[n].newOwner == self)
  {
    if batch[n].obj == o && batch[n].newOwner == self {
      assert 0 <= n < next;
    }
  }

  /** They are those, and exactly those, whose orders are queued. */
  lemma {:induction false} MissingAreQueued(self: Id, now: Time, p: Peer, batch: seq<Transfer>, n: nat, o: Id)
    requires n <= |batch| && o !in p.objects
    ensures var q := ReceiveFirst(self, true, now, p, batch, n).0;
            && q.objects.Keys == p.objects.Keys
            && (o in Missing(self, p, batch, n) <==> HandedOver(self, batch, n, o))
            && (o in Missing(self, p, batch, n) ==> o in q.transfer && q.transfer[o].newOwner == self)
            && (o !in Missing(self, p, batch, n) ==> Lookup(q.transfer, o) == Lookup(p.transfer, o))
  {
    if n > 0 {
      var before := n - 1;
      MissingAreQueued(self, now, p, batch, before, o);
      HandedOverNext(self, batch, before, n, o);
      var q := ReceiveFirst(self, true, now, p, batch, before).0;
      QueueNext(self, now, q, batch[before], o);
      assert Missing(self, p, batch, n) == Missing(self, p, batch, before) +
             if batch[before].newOwner == self && batch[before].obj !in p.objects then [batch[before].obj] else [];
    }
  }

  /** An object handed over once is asked for once. */
  lemma {:induction false} MissingOnce(self: Id, p: Peer, batch: seq<Transfer>, n: nat)
    requires n <= |batch| && forall i, j :: 0 <= i < j < |batch| ==> batch[i].obj != batch[j].obj
    ensures var list := Missing(self, p, batch, n);
            && (forall i, j :: 0 <= i < j < |list| ==> list[i] != list[j])
            && forall o :: o in list ==> HandedOver(self, batch, n, o)
  {
    if n > 0 {
      var before := n - 1;
      MissingOnce(self, p, batch, before);
      var list := Missing(self, p, batch, before);
      forall o | o in list
        ensures HandedOver(self, batch, n, o) && o != batch[before].obj
      {
        HandedOverNext(self, batch, before, n, o);
      }
      HandedOverNext(self, batch, before, n, batch[before].obj);
      assert forall i :: 0 <= i < |list| ==> list[i] in list;
      assert Missing(self, p, batch, n) == list || Missing(self, p, batch, n) == list + [batch[before].obj];
    }
  }

  // The acknowledgements due for a batch: one for each order that is accepted
  // and names a previous owner, in batch order.
  function AcksDue(self: Id, joined: bool, now: Time, p: Peer, batch: seq<Transfer>, n: nat): seq<Ack>
    requires n <= |batch|
  {
    if n == 0 then []
    else
      var tr := batch[n - 1];
      AcksDue(self, joined, now, p, batch, n - 1)
      + if joined && tr.newOwner == self && tr.obj in p.objects && tr.oldOwner != 0
        then [Ack(tr.obj, tr.oldOwner, tr.sent, now)] else []
  }

  lemma AckNext(self: Id, joined: bool, now: Time, q: Peer, tr: Transfer)
    ensures var h := Receive(self, joined, now, tr, q.SliceOf(tr.obj));
            && q.With(tr.obj, h.slice).objects.Keys == q.objects.Keys
            && h.ack == if joined && tr.newOwner == self && tr.obj in q.objects && tr.oldOwner != 0
                        then Some(Ack(tr.obj, tr.oldOwner, tr.sent, now)) else None
  {
  }

  /** These are the ones sent, for any batch. */
  lemma {:induction false} AcksAreSent(self: Id, joined: bool, now: Time, p: Peer, batch: seq<Transfer>, n: nat)
    requires n <= |batch|
    ensures var (q, acks) := ReceiveFirst(self, joined, now, p, batch, n);
            acks == AcksDue(self, joined, now, p, batch, n) && q.objects.Keys == p.objects.Keys
  {
    if n > 0 {
      AcksAreSent(self, joined, now, p, batch, n - 1);
      AckNext(self, joined, now, ReceiveFirst(self, joined, now, p, batch, n - 1).0, batch[n - 1]);
    }
  }

  lemma QueueNext(self: Id, now: Time, q: Peer, tr: Transfer, o: Id)
    requires o !in q.objects
    ensures var r := q.With(tr.obj, Receive(self, true, now, tr, q.SliceOf(tr.obj)).slice);
            && r.objects.Keys == q.objects.Keys
            && Lookup(r.transfer, o) == if tr.obj == o && tr.newOwner == self then Some(tr) else Lookup(q.transfer, o)
  {
  }

  /** A batch that names each object once acts on each of them alone. */
  lemma {:induction false} ReceiveFirstIsPointwise(self: Id, joined: bool, now: Time, p: Peer,
                                                   batch: seq<Transfer>, n: nat, o: Id)
    requires n <= |batch|
    requires forall i, j :: 0 <= i < j < |batch| ==> batch[i].obj != batch[j].obj
    ensures forall i :: 0 <= i < n && batch[i].obj == o ==>
              ReceiveFirst(self, joined, now, p, batch, n).0.SliceOf(o)
                == Receive(self, joined, now, batch[i], p.SliceOf(o)).slice
    ensures (forall i :: 0 <= i < n ==> batch[i].obj != o) ==>
              ReceiveFirst(self, joined, now, p, batch, n).0.SliceOf(o) == p.SliceOf(o)
  {
    if n > 0 {
      ReceiveFirstIsPointwise(self, joined, now, p, batch, n - 1, o);
    }
  }

  class VsoPeer {
    const self: Id
    const t: Time                                // VSO_TIMEOUT_TRANSFER in clock units
    var joined: bool
    var objects: map<Id, SharedObject>
    var transferAt: map<Id, Time>                // _transfer_timeout
    var reclaimAt: map<Id, Time>                 // _reclaim_timeout
    var transfer: map<Id, Transfer>              // orders queued for unknown objects

    constructor (self: Id, t: Time)
      ensures this.self == self && this.t == t && !joined
      ensures State() == Peer(map[], map[], map[], map[])
    {
      this.self, this.t, joined := self, t, false;
      objects, transferAt, reclaimAt, transfer := map[], map[], map[], map[];
    }

    function State(): Peer
      reads this
    {
      Peer(objects, transferAt, reclaimAt, transfer)
    }

    method ClaimOwnership(o: Id, now: Time)
      requires o in objects
      modifies this`objects, this`reclaimAt
      ensures State() == old(State()).With(o, Claim(now, old(State()).SliceOf(o)))
    {
      objects := objects[o := objects[o].(isOwner := true, inTransit := 0, lastUpdate := now)];
      reclaimAt := reclaimAt - {o};
      SameMaps(old(State()), o);
    }

    // Writing back what is there changes nothing.
    lemma SameMaps(p: Peer, o: Id)
      ensures Put(p.transferAt, o, Lookup(p.transferAt, o)) == p.transferAt
      ensures Put(p.reclaimAt, o, Lookup(p.reclaimAt, o)) == p.reclaimAt
      ensures Put(p.transfer, o, Lookup(p.transfer, o)) == p.transfer
      ensures Put(p.objects, o, Lookup(p.objects, o)) == p.objects
    {
    }

    method CheckCountdowns(o: Id, now: Time, v: View) returns (sent: Option<Transfer>)
      requires o in objects
      modifies this`objects, this`transferAt, this`reclaimAt
      ensures var c := CheckRegion(self, t, now, o, v, old(State()).SliceOf(o));
              State() == old(State()).With(o, c.slice) && sent == c.sent
    {
      sent := None;
      var so := objects[o];
      SameMaps(State(), o);
      if !v.inRegion {
        if so.isOwner {
          if o !in transferAt {
            transferAt := transferAt[o := now + t];
          } else if now >= transferAt[o] {
            if v.closest != self {
              sent := Some(Transfer(o, v.closest, self, now));
              objects := objects[o := so.(isOwner := false, inTransit := now + 3 * t)];
              transferAt := transferAt - {o};
            }
          }
        } else if o in reclaimAt {
          reclaimAt := reclaimAt - {o};
        }
      } else {
        if !so.isOwner {
          if o !in reclaimAt {
            reclaimAt := reclaimAt[o := now + 5 * t];
          }
          if now >= reclaimAt[o] {
            ClaimOwnership(o, now);
          }
        } else if o in transferAt {
          transferAt := transferAt - {o};
        }
      }
    }

    method CheckObject(o: Id, now: Time, v: View) returns (sent: Option<Transfer>)
      requires o in objects
      modifies this`objects, this`transferAt, this`reclaimAt
      ensures objects.Keys == old(objects.Keys)
      ensures var c := Check(self, t, now, o, v, old(State()).SliceOf(o));
              State() == old(State()).With(o, c.slice) && sent == c.sent
    {
      sent := CheckCountdowns(o, now, v);
      if objects[o].inTransit != 0 && now >= objects[o].inTransit {
        ClaimOwnership(o, now);
      }
    }

    method CheckNext(o: Id, now: Time, v: View, lists: map<Id, seq<Transfer>>, ghost all: seq<Transfer>)
      returns (lists': map<Id, seq<Transfer>>, ghost all': seq<Transfer>)
      requires o in objects && lists == Grouped(all)
      modifies this`objects, this`transferAt, this`reclaimAt
      ensures objects.Keys == old(objects.Keys)
      ensures var c := Check(self, t, now, o, v, old(State()).SliceOf(o));
              && State() == old(State()).With(o, c.slice)
              && all' == if c.sent.Some? then all + [c.sent.value] else all
      ensures lists' == Grouped(all')
    {
      var sent := CheckObject(o, now, v);
      lists', all' := lists, all;
      if sent.Some? {
        lists' := AddToList(lists, sent.value);
        all' := all + [sent.value];
        assert all'[..|all|] == all;
      }
    }

    // The walk itself: one list of released orders for every target.
    method CheckAll(now: Time, views: map<Id, View>)
      returns (lists: map<Id, seq<Transfer>>, ghost all: seq<Transfer>)
      requires objects.Keys <= views.Keys
      modifies this`objects, this`transferAt, this`reclaimAt
      ensures (State(), all) == CheckWhole(self, t, now, views, old(State()))
      ensures lists == Grouped(all)
    {
      var keys := Ascending(objects.Keys);
      lists, all := CheckEach(now, views, keys);
    }

    method CheckEach(now: Time, views: map<Id, View>, keys: seq<Id>)
      returns (lists: map<Id, seq<Transfer>>, ghost all: seq<Transfer>)
      requires forall i :: 0 <= i < |keys| ==> keys[i] in views && keys[i] in objects
      modifies this`objects, this`transferAt, this`reclaimAt
      ensures (State(), all) == CheckFirst(self, t, now, views, old(State()), keys, |keys|)
      ensures lists == Grouped(all)
    {
      lists, all := map[], [];
      ghost var start := State();
      for i := 0 to |keys|
        invariant objects.Keys == start.objects.Keys
        invariant (State(), all) == CheckFirst(self, t, now, views, start, keys, i)
        invariant lists == Grouped(all)
      {
        lists, all := CheckNext(keys[i], now, views[keys[i]], lists, all);
      }
    }

    /** Checks all objects in id order and sends the released ones, batched by
        target, to the target and the enclosing neighbours. */
    method CheckOwnershipTransfer(now: Time, views: map<Id, View>, enclosing: set<Id>)
      returns (messages: map<Id, Message>, ghost all: seq<Transfer>)
      requires objects.Keys <= views.Keys
      modifies this`objects, this`transferAt, this`reclaimAt
      ensures !joined ==> State() == old(State()) && all == []
      ensures joined ==> (State(), all) == CheckWhole(self, t, now, views, old(State()))
      ensures messages == MessagesOf(Grouped(all), enclosing)
    {
      messages, all := map[], [];
      if joined {
        var lists;
        lists, all := CheckAll(now, views);
        messages := MessagesOf(lists, enclosing);
      }
    }

    method AcceptTransfer(tr: Transfer, now: Time) returns (ack: Option<Ack>)
      requires tr.obj in objects
      modifies this`objects, this`reclaimAt
      ensures State() == old(State()).With(tr.obj, Accept(now, old(State()).SliceOf(tr.obj)))
      ensures ack == AckFor(now, tr)
    {
      SameMaps(State(), tr.obj);
      objects := objects[tr.obj := objects[tr.obj].(isOwner := true, lastUpdate := now)];
      ack := None;
      if tr.oldOwner != 0 {
        ack := Some(Ack(tr.obj, tr.oldOwner, tr.sent, now));
      }
      if tr.obj in reclaimAt {
        reclaimAt := reclaimAt - {tr.obj};
      }
    }

    /** A whole VSO_TRANSFER message. */
    method ProcessTransfer(batch: seq<Transfer>, now: Time) returns (acks: seq<Ack>, missing: seq<Id>)
      modifies this`objects, this`reclaimAt, this`transfer
      ensures joined ==> (State(), acks) == ReceiveFirst(self, joined, now, old(State()), batch, |batch|)
      ensures joined ==> missing == Missing(self, old(State()), batch, |batch|)
      ensures !joined ==> State() == old(State()) && acks == [] && missing == []
    {
      acks, missing := [], [];
      if !joined {
        return;
      }
      for i := 0 to |batch|
        invariant (State(), acks) == ReceiveFirst(self, joined, now, old(State()), batch, i)
        invariant objects.Keys == old(objects).Keys && missing == Missing(self, old(State()), batch, i)
      {
        var tr := batch[i];
        SameMaps(State(), tr.obj);
        var toMe := self == tr.newOwner;
        if tr.obj !in objects {
          if toMe {
            missing := missing + [tr.obj];
            transfer := transfer[tr.obj := tr];
          }
        } else if toMe {
          var ack := AcceptTransfer(tr, now);
          if ack.Some? {
            acks := acks + [ack.value];
          }
        }
      }
    }

    method HandleAck(o: Id)
      modifies this`objects
      ensures State() == old(State()).With(o, AckArrives(old(State()).SliceOf(o)))
    {
      SameMaps(State(), o);
      if o !in objects {
        return;
      }
      objects := objects[o := objects[o].(inTransit := 0)];
    }

    method HandleDisconnect(from: Id)
      modifies this`reclaimAt
      ensures var keys := Ascending(objects.Keys); State() == DepartFirst(from, old(State()), keys, |keys|)
    {
      var keys := Ascending(objects.Keys);
      DepartAll(from, keys);
    }

    method DepartAll(from: Id, keys: seq<Id>)
      requires forall i :: 0 <= i < |keys| ==> keys[i] in objects
      modifies this`reclaimAt
      ensures State() == DepartFirst(from, old(State()), keys, |keys|)
    {
      for i := 0 to |keys|
        invariant State() == DepartFirst(from, old(State()), keys, i)
      {
        var o := keys[i];
        if objects[o].closest == from {
          reclaimAt := reclaimAt[o := 0];
        }
      }
    }

    method InsertSharedObject(o: Id, isOwner: bool, now: Time) returns (ok: bool, ack: Option<Ack>)
      requires o in transfer ==> transfer[o].obj == o
      modifies this`objects, this`reclaimAt, this`transfer
      ensures ok == (o !in old(objects))
      ensures var h := Insert(now, isOwner, old(State()).SliceOf(o));
              State() == old(State()).With(o, h.slice) && ack == h.ack
    {
      SameMaps(State(), o);
      ack := None;
      if o in objects {
        return false, None;
      }
      ok := true;
      objects := objects[o := SharedObject(isOwner, 0, now, 0)];
      if o in transfer {
        ack := AcceptTransfer(transfer[o], now);
        transfer := transfer - {o};
      }
    }

    method UpdateSharedObject(o: Id, owner: Option<bool>, now: Time) returns (ok: bool)
      modifies this`objects
      ensures ok == (o in old(objects))
      ensures State() == old(State()).With(o, Update(now, owner, old(State()).SliceOf(o)))
    {
      SameMaps(State(), o);
      if o !in objects {
        return false;
      }
      objects := objects[o := objects[o].(lastUpdate := now)];
      if owner.Some? {
        objects := objects[o := objects[o].(isOwner := owner.value)];
      }
      return true;
    }

    method DeleteSharedObject(o: Id) returns (ok: bool)
      modifies this`objects
      ensures ok == (o in old(objects))
      ensures State() == old(State()).With(o, Delete(old(State()).SliceOf(o)))
    {
      SameMaps(State(), o);
      if o !in objects {
        return false;
      }
      objects := objects - {o};
      return true;
    }
  }
}
