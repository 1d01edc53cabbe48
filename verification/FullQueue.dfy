/** The queue of complete messages: a multimap by priority
    (VASTnet/VASTnet.cpp, storeVASTMessage and receiveMessage). */
module FullQueue {
  import opened Options

  type Id = nat

  // Lower numbers go first.
  datatype Item<+T> = Item(priority: nat, from: Id, value: T)

  ghost predicate Sorted<T>(q: seq<Item<T>>) {
    forall i, j :: 0 <= i < j < |q| ==> q[i].priority <= q[j].priority
  }

  // A multimap puts an entry behind those with the same key.
  function Insert<T>(q: seq<Item<T>>, x: Item<T>): (r: seq<Item<T>>)
    ensures |r| == |q| + 1
    ensures multiset(r) == multiset(q) + multiset{x}
  {
    if q == [] || x.priority < q[0].priority then [x] + q
    else
      var r := [q[0]] + Insert(q[1..], x);
      assert q == [q[0]] + q[1..];
      r
  }

  function OfClass<T>(q: seq<Item<T>>, p: nat): seq<Item<T>> {
    if q == [] then []
    else if q[0].priority == p then [q[0]] + OfClass(q[1..], p)
    else OfClass(q[1..], p)
  }

  lemma {:induction false} InsertKeepsSorted<T>(q: seq<Item<T>>, x: Item<T>)
    requires Sorted(q)
    ensures Sorted(Insert(q, x))
    ensures forall y :: y in Insert(q, x) ==> y == x || y in q
  {
    if q != [] && x.priority >= q[0].priority {
      InsertKeepsSorted(q[1..], x);
      var r := Insert(q[1..], x);
      forall i | 0 <= i < |r|
        ensures q[0].priority <= r[i].priority
      {
        assert r[i] in r;
      }
    }
  }

  lemma {:induction false} NoneBelow<T>(q: seq<Item<T>>, p: nat)
    requires forall i :: 0 <= i < |q| ==> p < q[i].priority
    ensures OfClass(q, p) == []
  {
    if q != [] {
      NoneBelow(q[1..], p);
    }
  }

  lemma {:induction false} InsertAtEndOfClass<T>(q: seq<Item<T>>, x: Item<T>, p: nat)
    requires Sorted(q)
    ensures OfClass(Insert(q, x), p) == OfClass(q, p) + if x.priority == p then [x] else []
  {
    if q == [] || x.priority < q[0].priority {
      assert ([x] + q)[1..] == q;
      if x.priority == p {
        NoneBelow(q, p);
      }
    } else {
      assert ([q[0]] + Insert(q[1..], x))[1..] == Insert(q[1..], x);
      InsertAtEndOfClass(q[1..], x, p);
    }
  }

  // One use of the queue: a message stored, or the next one received.
  datatype Use<+T> = Stored(item: Item<T>) | Received

  datatype Log<+T> = Log(queue: seq<Item<T>>, stored: seq<Item<T>>, received: seq<Item<T>>)

  function After<T>(uses: seq<Use<T>>): Log<T> {
    if uses == [] then Log([], [], [])
    else
      var log := After(uses[..|uses| - 1]);
      match uses[|uses| - 1]
      case Stored(x) => Log(Insert(log.queue, x), log.stored + [x], log.received)
      case Received =>
        if log.queue == [] then log
        else Log(log.queue[1..], log.stored, log.received + [log.queue[0]])
  }

  lemma {:induction false} ClassSnoc<T>(q: seq<Item<T>>, x: Item<T>, p: nat)
    ensures OfClass(q + [x], p) == OfClass(q, p) + if x.priority == p then [x] else []
  {
    if q == [] {
      assert [x][1..] == [];
    } else {
      assert (q + [x])[1..] == q[1..] + [x];
      ClassSnoc(q[1..], x, p);
    }
  }

  /** Over every run: within one priority nothing is lost, repeated or
      overtaken, and whatever is received next is of the best priority
      present. */
  lemma {:induction false} PriorityFifo<T>(uses: seq<Use<T>>, p: nat)
    ensures var log := After(uses);
            && Sorted(log.queue)
            && OfClass(log.received, p) + OfClass(log.queue, p) == OfClass(log.stored, p)
  {
    if uses != [] {
      var before := uses[..|uses| - 1];
      var log := After(before);
      PriorityFifo(before, p);
      match uses[|uses| - 1] {
        case Stored(x) =>
          InsertKeepsSorted(log.queue, x);
          InsertAtEndOfClass(log.queue, x, p);
          ClassSnoc(log.stored, x, p);
        case Received =>
          if log.queue != [] {
            ClassSnoc(log.received, log.queue[0], p);
          }
      }
    }
  }

  class Queue<T> {
    var items: seq<Item<T>>
    var active: bool

    // A message without a connection's id goes under its own sender's.
    method StoreVastMessage(fromhost: Id, sender: Id, priority: nat, value: T) returns (ok: bool)
      modifies this`items
      ensures ok == active
      ensures !active ==> items == old(items)
      ensures active ==>
                items == Insert(old(items), Item(priority, if fromhost == 0 then sender else fromhost, value))
    {
      if !active {
        return false;
      }
      var from := fromhost;
      if from == 0 {
        from := sender;
      }
      items := Insert(items, Item(priority, from, value));
      return true;
    }

    // `timeLeft`: whether the present time slot is not used up yet.
    method ReceiveMessage(timeLeft: bool) returns (m: Option<Item<T>>)
      modifies this`items
      ensures !active || !timeLeft || old(items) == [] ==> m == None && items == old(items)
      ensures active && timeLeft && old(items) != [] ==> m == Some(old(items)[0]) && items == old(items)[1..]
    {
      if !active || !timeLeft || items == [] {
        return None;
      }
      m := Some(items[0]);
      items := items[1..];
    }
  }
}
