/** Values shared by every part of the model: optional values and the ascending
    key order in which the program's ordered maps are walked. */
module Options {
  datatype Option<+T> = None | Some(value: T)
}

module OrderedKeys {
  // Strictly ascending, hence without duplicates.
  ghost predicate Ascends(s: seq<nat>) {
    forall i, j :: 0 <= i < j < |s| ==> s[i] < s[j]
  }

  predicate IsLeast(keys: set<nat>, m: nat) {
    m in keys && forall k :: k in keys ==> m <= k
  }

  lemma {:induction false} HasLeast(keys: set<nat>) returns (m: nat)
    requires keys != {}
    ensures IsLeast(keys, m)
  {
    var x :| x in keys;
    var rest := keys - {x};
    if rest == {} {
      assert keys == {x};
      m := x;
    } else {
      var l := HasLeast(rest);
      m := if l < x then l else x;
      assert forall k :: k in keys ==> k == x || k in rest;
    }
  }

  lemma SomeLeast(keys: set<nat>)
    requires keys != {}
    ensures exists m :: IsLeast(keys, m)
  {
    var m := HasLeast(keys);
  }

  function Least(keys: set<nat>): (m: nat)
    requires keys != {}
    ensures m in keys && forall k :: k in keys ==> m <= k
  {
    SomeLeast(keys);
    var m :| IsLeast(keys, m);
    m
  }

  /** The walk order of a std::map with these keys: every key once, ascending. */
  function Ascending(keys: set<nat>): (s: seq<nat>)
    ensures Ascends(s)
    ensures forall k :: k in s <==> k in keys
    ensures |s| == |keys|
  {
    if keys == {} then []
    else
      var m := Least(keys);
      var rest := Ascending(keys - {m});
      assert forall k :: k in rest ==> m < k;
      [m] + rest
  }

  // The first key of an ascending walk with some property is the least such key.
  lemma FirstIsLeast(walk: seq<nat>, i: nat, wanted: set<nat>)
    requires Ascends(walk) && i < |walk| && walk[i] in wanted
    requires forall j :: 0 <= j < i ==> walk[j] !in wanted
    requires forall k :: k in wanted ==> k in walk
    ensures Least(wanted) == walk[i]
  {
    forall k | k in wanted
      ensures walk[i] <= k
    {
      var j :| 0 <= j < |walk| && walk[j] == k;
    }
  }

  // An ascending list is the walk of the set of its elements.
  lemma {:induction false} AscendingIs(list: seq<nat>, keys: set<nat>)
    requires Ascends(list) && forall k :: k in list <==> k in keys
    ensures list == Ascending(keys)
  {
    if list == [] {
      assert keys == {};
    } else {
      assert list[0] in keys;
      assert forall k :: k in list ==> list[0] <= k;
      var rest := list[1..];
      assert list == [list[0]] + rest;
      assert forall k :: k in rest <==> k in keys - {list[0]};
      AscendingIs(rest, keys - {list[0]});
    }
  }
}

module Sequences {
  ghost predicate NoRepeats<T>(list: seq<T>) {
    forall i, j :: 0 <= i < j < |list| ==> list[i] != list[j]
  }

  // The first n elements of a list, as a set.
  function FirstOf<T(==)>(list: seq<T>, n: nat): set<T>
    requires n <= |list|
  {
    set i | 0 <= i < n :: list[i]
  }

  lemma FirstOfGrows<T>(list: seq<T>, n: nat)
    requires n < |list|
    ensures FirstOf(list, n + 1) == FirstOf(list, n) + {list[n]}
  {
  }

  lemma {:induction false} FirstOfSize<T>(list: seq<T>, n: nat)
    requires n <= |list| && NoRepeats(list)
    ensures |FirstOf(list, n)| == n
  {
    if n > 0 {
      FirstOfSize(list, n - 1);
      FirstOfGrows(list, n - 1);
      assert list[n - 1] !in FirstOf(list, n - 1);
    }
  }

  lemma SubsetSize<T>(a: set<T>, b: set<T>)
    requires a <= b
    ensures |a| <= |b|
    ensures |a| == |b| <==> a == b
  {
    assert b == a + (b - a);
  }
}
