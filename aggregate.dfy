/**
 * The accumulations both reporters perform: counting by key into a JavaScript object (whose
 * entries come back in the order the keys were first inserted), the stable
 * `Array.prototype.sort`, and `slice(0, n)`.
 */
module Aggregate {

  /** One `[key, count]` pair of `Object.entries`. */
  datatype Entry = Entry(key: string, count: nat)

  /** The position of the entry for `key`, or `|t|`. */
  function EntryIndex(t: seq<Entry>, key: string): (i: nat)
    ensures i <= |t|
    ensures i < |t| ==> t[i].key == key
    ensures forall j :: 0 <= j < i ==> t[j].key != key
  {
    if t == [] then 0 else if t[0].key == key then 0 else 1 + EntryIndex(t[1..], key)
  }

  /** `acc[key] = (acc[key] || 0) + 1` on the entry list: an existing entry is incremented in place, a new key is appended with 1. */
  function Bump(t: seq<Entry>, key: string): seq<Entry> {
    var i := EntryIndex(t, key);
    if i < |t| then t[i := Entry(key, t[i].count + 1)] else t + [Entry(key, 1)]
  }

  /** The entries of the object a `reduce` counting `keys` produces. */
  function Tally(keys: seq<string>): seq<Entry> {
    if keys == [] then [] else Bump(Tally(keys[..|keys| - 1]), keys[|keys| - 1])
  }

  /** The number of occurrences of `key` in `keys`. */
  function Occurrences(keys: seq<string>, key: string): nat {
    if keys == [] then 0 else Occurrences(keys[..|keys| - 1], key) + (if keys[|keys| - 1] == key then 1 else 0)
  }

  /** The first position of `key` in `keys`, or `|keys|`. */
  function FirstIndex(keys: seq<string>, key: string): (i: nat)
    ensures i <= |keys|
    ensures i < |keys| ==> keys[i] == key
    ensures forall j :: 0 <= j < i ==> keys[j] != key
  {
    if keys == [] then 0 else if keys[0] == key then 0 else 1 + FirstIndex(keys[1..], key)
  }

  function SumCounts(t: seq<Entry>): nat {
    if t == [] then 0 else SumCounts(t[..|t| - 1]) + t[|t| - 1].count
  }

  predicate DistinctKeys(t: seq<Entry>) {
    forall i, j :: 0 <= i < j < |t| ==> t[i].key != t[j].key
  }

  /**
   * The `reduce` over `keys` with an object accumulator, followed by `Object.entries`: `order`
   * records the insertion order of the object's keys and `acc` its values.
   */
  method CountByKey(keys: seq<string>) returns (entries: seq<Entry>)
    ensures entries == Tally(keys)
  {
    var order: seq<string> := [];
    var acc: map<string, nat> := map[];
    var i := 0;
    while i < |keys|
      invariant 0 <= i <= |keys|
      invariant forall k :: k in order ==> k in acc
      invariant EntriesOf(order, acc) == Tally(keys[..i])
      invariant forall k :: k in acc ==> k in order
    {
      TallyStep(keys, i);
      TallyDistinct(keys[..i]);
      order, acc := CountKey(order, acc, keys[i]);
      i := i + 1;
    }
    assert keys[..i] == keys;
    entries := ObjectEntries(order, acc);
  }

  /** `acc[key] = (acc[key] || 0) + 1` on the object: a new key also joins the key order. */
  method CountKey(order: seq<string>, acc: map<string, nat>, key: string) returns (order': seq<string>, acc': map<string, nat>)
    requires forall k :: k in order ==> k in acc
    requires forall k :: k in acc ==> k in order
    requires DistinctKeys(EntriesOf(order, acc))
    ensures forall k :: k in order' ==> k in acc'
    ensures forall k :: k in acc' ==> k in order'
    ensures EntriesOf(order', acc') == Bump(EntriesOf(order, acc), key)
  {
    if key in acc {
      BumpExisting(order, acc, key);
      order', acc' := order, acc[key := acc[key] + 1];
    } else {
      BumpNew(order, acc, key);
      order', acc' := order + [key], acc[key := 1];
    }
  }

  /** `Object.entries` on an object with key order `order` and values `acc`. */
  method ObjectEntries(order: seq<string>, acc: map<string, nat>) returns (entries: seq<Entry>)
    requires forall k :: k in order ==> k in acc
    ensures entries == EntriesOf(order, acc)
  {
    entries := [];
    var j := 0;
    while j < |order|
      invariant 0 <= j <= |order|
      invariant entries == EntriesOf(order[..j], acc)
    {
      assert order[..j + 1][..j] == order[..j];
      entries := entries + [Entry(order[j], acc[order[j]])];
      j := j + 1;
    }
    assert order[..j] == order;
  }

  lemma TallyStep(keys: seq<string>, i: nat)
    requires i < |keys|
    ensures Tally(keys[..i + 1]) == Bump(Tally(keys[..i]), keys[i])
  {
    assert keys[..i + 1][..i] == keys[..i];
  }

  /** `Object.entries` of an object with key order `order` and values `acc`. */
  function EntriesOf(order: seq<string>, acc: map<string, nat>): (t: seq<Entry>)
    requires forall k :: k in order ==> k in acc
    ensures |t| == |order|
    ensures forall j :: 0 <= j < |order| ==> t[j] == Entry(order[j], acc[order[j]])
  {
    if order == [] then [] else EntriesOf(order[..|order| - 1], acc) + [Entry(order[|order| - 1], acc[order[|order| - 1]])]
  }

  /** Incrementing a key the object already holds agrees with one step on the entry list. */
  lemma BumpExisting(order: seq<string>, acc: map<string, nat>, key: string)
    requires forall k :: k in order ==> k in acc
    requires DistinctKeys(EntriesOf(order, acc))
    requires key in order
    ensures EntriesOf(order, acc[key := acc[key] + 1]) == Bump(EntriesOf(order, acc), key)
  {
    var t := EntriesOf(order, acc);
    var i := EntryIndex(t, key);
    var p :| 0 <= p < |order| && order[p] == key;
    assert t[p].key == key;
    assert i == p;
    var u := EntriesOf(order, acc[key := acc[key] + 1]);
    var b := t[i := Entry(key, t[i].count + 1)];
    forall j | 0 <= j < |u|
      ensures u[j] == b[j]
    {
      if j != i {
        assert t[j].key == order[j];
      }
    }
  }

  /** Adding a key the object lacks agrees with one step on the entry list. */
  lemma BumpNew(order: seq<string>, acc: map<string, nat>, key: string)
    requires forall k :: k in order ==> k in acc
    requires key !in order
    ensures EntriesOf(order + [key], acc[key := 1]) == Bump(EntriesOf(order, acc), key)
  {
    var t := EntriesOf(order, acc);
    assert forall j :: 0 <= j < |t| ==> t[j].key == order[j];
    var u := EntriesOf(order + [key], acc[key := 1]);
    var b := t + [Entry(key, 1)];
    forall j | 0 <= j < |u|
      ensures u[j] == b[j]
    {
      if j < |t| {
        assert (order + [key])[j] == order[j] != key;
      }
    }
  }

  /** Entry lists whose keys agree on a prefix find a key of that prefix at the same place. */
  lemma EntryIndexSameKeys(t: seq<Entry>, b: seq<Entry>, key: string)
    requires |t| <= |b|
    requires forall j :: 0 <= j < |t| ==> b[j].key == t[j].key
    ensures EntryIndex(t, key) < |t| ==> EntryIndex(b, key) == EntryIndex(t, key)
    ensures EntryIndex(t, key) == |t| ==> EntryIndex(b, key) >= |t|
  {
  }

  // ---------------------------------------------------------------------------------------
  // Properties of the tally

  lemma {:induction false} BumpKeepsDistinct(t: seq<Entry>, key: string)
    requires DistinctKeys(t)
    ensures DistinctKeys(Bump(t, key))
  {
  }

  /** Every key appears in at most one entry. */
  lemma {:induction false} TallyDistinct(keys: seq<string>)
    ensures DistinctKeys(Tally(keys))
  {
    if keys != [] {
      TallyDistinct(keys[..|keys| - 1]);
      BumpKeepsDistinct(Tally(keys[..|keys| - 1]), keys[|keys| - 1]);
    }
  }

  /** A key has an entry exactly when it occurs, and the entry counts its occurrences. */
  lemma {:induction false} TallyCounts(keys: seq<string>, key: string)
    ensures EntryIndex(Tally(keys), key) < |Tally(keys)| <==> key in keys
    ensures EntryIndex(Tally(keys), key) < |Tally(keys)| ==> Tally(keys)[EntryIndex(Tally(keys), key)].count == Occurrences(keys, key)
    ensures key !in keys ==> Occurrences(keys, key) == 0
  {
    if keys != [] {
      var front := keys[..|keys| - 1];
      var last := keys[|keys| - 1];
      TallyCounts(front, key);
      var t := Tally(front);
      var b := Tally(keys);
      assert b == Bump(t, last);
      assert Occurrences(keys, key) == Occurrences(front, key) + (if last == key then 1 else 0);
      assert key in keys <==> key in front || key == last by {
        assert keys == front + [last];
      }
      assert forall j :: 0 <= j < |t| ==> b[j].key == t[j].key;
      EntryIndexSameKeys(t, b, key);
      var i := EntryIndex(t, last);
      if last == key {
        if i < |t| {
          assert b[i] == Entry(key, t[i].count + 1);
        } else {
          assert b[|t|] == Entry(key, 1);
        }
      } else if i < |t| {
        assert EntryIndex(b, key) != i;
      } else {
        assert b[|t|].key != key;
      }
    }
  }

  lemma {:induction false} OccurrencesPositive(keys: seq<string>, key: string)
    requires key in keys
    ensures Occurrences(keys, key) > 0
  {
    if keys[|keys| - 1] != key {
      var front := keys[..|keys| - 1];
      assert keys == front + [keys[|keys| - 1]];
      OccurrencesPositive(front, key);
    }
  }

  /** Each entry counts the occurrences of its own key. */
  lemma TallyEntryCount(keys: seq<string>, i: nat)
    requires i < |Tally(keys)|
    ensures Tally(keys)[i].key in keys
    ensures Tally(keys)[i].count == Occurrences(keys, Tally(keys)[i].key)
  {
    var t := Tally(keys);
    TallyDistinct(keys);
    TallyCounts(keys, t[i].key);
    assert EntryIndex(t, t[i].key) == i;
  }

  lemma {:induction false} SumUpdate(t: seq<Entry>, i: nat, e: Entry)
    requires i < |t|
    ensures SumCounts(t[i := e]) == SumCounts(t) - t[i].count + e.count
    decreases |t|
  {
    if i < |t| - 1 {
      assert t[i := e][..|t| - 1] == t[..|t| - 1][i := e];
      SumUpdate(t[..|t| - 1], i, e);
    } else {
      assert t[i := e][..|t| - 1] == t[..|t| - 1];
    }
  }

  /** The counts add up to the number of keys counted. */
  lemma {:induction false} TallySum(keys: seq<string>)
    ensures SumCounts(Tally(keys)) == |keys|
  {
    if keys != [] {
      var front := keys[..|keys| - 1];
      TallySum(front);
      var t := Tally(front);
      var key := keys[|keys| - 1];
      assert Tally(keys) == Bump(t, key);
      var i := EntryIndex(t, key);
      if i < |t| {
        assert Bump(t, key) == t[i := Entry(key, t[i].count + 1)];
        SumUpdate(t, i, Entry(key, t[i].count + 1));
      } else {
        assert Bump(t, key) == t + [Entry(key, 1)];
        assert (t + [Entry(key, 1)])[..|t|] == t;
      }
    }
  }

  /** Every entry's key occurs among the keys counted. */
  lemma TallyKeysOccur(keys: seq<string>, i: nat)
    requires i < |Tally(keys)|
    ensures Tally(keys)[i].key in keys
  {
    TallyCounts(keys, Tally(keys)[i].key);
  }

  /** Entries come in the order in which their keys first occur. */
  lemma {:induction false} TallyFirstOccurrencePair(keys: seq<string>, i: nat, j: nat)
    requires i < j < |Tally(keys)|
    ensures FirstIndex(keys, Tally(keys)[i].key) < FirstIndex(keys, Tally(keys)[j].key)
  {
    var front := keys[..|keys| - 1];
    var last := keys[|keys| - 1];
    assert keys == front + [last];
    var t := Tally(front);
    var b := Tally(keys);
    assert forall n :: 0 <= n < |t| ==> b[n].key == t[n].key;
    TallyKeysOccur(front, i);
    FirstIndexPrefix(front, last, t[i].key);
    if j < |t| {
      TallyFirstOccurrencePair(front, i, j);
      TallyKeysOccur(front, j);
      FirstIndexPrefix(front, last, t[j].key);
    } else {
      TallyCounts(front, last);
      FirstIndexPrefix(front, last, last);
    }
  }

  lemma TallyFirstOccurrenceOrder(keys: seq<string>)
    ensures forall i, j :: 0 <= i < j < |Tally(keys)| ==>
      FirstIndex(keys, Tally(keys)[i].key) < FirstIndex(keys, Tally(keys)[j].key)
  {
    forall i, j | 0 <= i < j < |Tally(keys)|
      ensures FirstIndex(keys, Tally(keys)[i].key) < FirstIndex(keys, Tally(keys)[j].key)
    {
      TallyFirstOccurrencePair(keys, i, j);
    }
  }

  lemma {:induction false} FirstIndexPrefix(front: seq<string>, last: string, k: string)
    ensures FirstIndex(front, k) < |front| ==> FirstIndex(front + [last], k) == FirstIndex(front, k)
    ensures FirstIndex(front, k) == |front| ==> FirstIndex(front + [last], k) == (if last == k then |front| else |front| + 1)
  {
    if front != [] {
      assert (front + [last])[1..] == front[1..] + [last];
      FirstIndexPrefix(front[1..], last, k);
    }
  }

  // ---------------------------------------------------------------------------------------
  // Sorting and truncation

  /** Inserts `x` after every element whose key is not greater than its own. */
  function Insert<T>(x: T, s: seq<T>, key: T -> int): (r: seq<T>)
    ensures |r| == |s| + 1
  {
    if s == [] || key(s[|s| - 1]) <= key(x) then s + [x]
    else Insert(x, s[..|s| - 1], key) + [s[|s| - 1]]
  }

  /** `Array.prototype.sort` with a comparator `key(a) - key(b)`: a stable sort by ascending key. */
  function SortBy<T>(s: seq<T>, key: T -> int): (r: seq<T>)
    ensures |r| == |s|
  {
    if s == [] then [] else Insert(s[|s| - 1], SortBy(s[..|s| - 1], key), key)
  }

  lemma {:induction false} InsertPermutes<T>(x: T, s: seq<T>, key: T -> int)
    ensures multiset(Insert(x, s, key)) == multiset(s) + multiset{x}
  {
    if !(s == [] || key(s[|s| - 1]) <= key(x)) {
      InsertPermutes(x, s[..|s| - 1], key);
      assert s == s[..|s| - 1] + [s[|s| - 1]];
    }
  }

  /** The result is a permutation of the input. */
  lemma {:induction false} SortByPermutes<T>(s: seq<T>, key: T -> int)
    ensures multiset(SortBy(s, key)) == multiset(s)
  {
    if s != [] {
      SortByPermutes(s[..|s| - 1], key);
      InsertPermutes(s[|s| - 1], SortBy(s[..|s| - 1], key), key);
      assert s == s[..|s| - 1] + [s[|s| - 1]];
    }
  }

  predicate SortedBy<T>(s: seq<T>, key: T -> int) {
    forall i, j :: 0 <= i < j < |s| ==> key(s[i]) <= key(s[j])
  }

  /** The elements with key `v`, in order. */
  function WithKey<T>(s: seq<T>, key: T -> int, v: int): seq<T> {
    if s == [] then [] else WithKey(s[..|s| - 1], key, v) + (if key(s[|s| - 1]) == v then [s[|s| - 1]] else [])
  }

  lemma {:induction false} InsertSorted<T>(x: T, s: seq<T>, key: T -> int)
    requires SortedBy(s, key)
    ensures SortedBy(Insert(x, s, key), key)
    ensures forall i :: 0 <= i < |Insert(x, s, key)| ==> Insert(x, s, key)[i] in s || Insert(x, s, key)[i] == x
  {
    var r := Insert(x, s, key);
    if s == [] || key(s[|s| - 1]) <= key(x) {
    } else {
      var front := s[..|s| - 1];
      InsertSorted(x, front, key);
      var inner := Insert(x, front, key);
      forall i | 0 <= i < |inner|
        ensures key(inner[i]) <= key(s[|s| - 1])
      {
        if inner[i] != x {
          assert inner[i] in front;
          var p :| 0 <= p < |front| && front[p] == inner[i];
          assert front[p] == s[p];
        }
      }
      forall i | 0 <= i < |inner|
        ensures inner[i] in s || inner[i] == x
      {
        if inner[i] != x {
          var p :| 0 <= p < |front| && front[p] == inner[i];
          assert s[p] == inner[i];
        }
      }
    }
  }

  /** The result is sorted by ascending key. */
  lemma {:induction false} SortBySorted<T>(s: seq<T>, key: T -> int)
    ensures SortedBy(SortBy(s, key), key)
  {
    if s != [] {
      SortBySorted(s[..|s| - 1], key);
      InsertSorted(s[|s| - 1], SortBy(s[..|s| - 1], key), key);
    }
  }

  lemma {:induction false} WithKeyAppend<T>(a: seq<T>, b: seq<T>, key: T -> int, v: int)
    ensures WithKey(a + b, key, v) == WithKey(a, key, v) + WithKey(b, key, v)
    decreases |b|
  {
    if b == [] {
      assert a + b == a;
    } else {
      assert (a + b)[..|a + b| - 1] == a + b[..|b| - 1];
      WithKeyAppend(a, b[..|b| - 1], key, v);
    }
  }

  lemma {:induction false} InsertStable<T>(x: T, s: seq<T>, key: T -> int, v: int)
    ensures WithKey(Insert(x, s, key), key, v) == WithKey(s, key, v) + (if key(x) == v then [x] else [])
  {
    if s == [] || key(s[|s| - 1]) <= key(x) {
      WithKeyAppend(s, [x], key, v);
      assert WithKey([x], key, v) == WithKey([], key, v) + (if key(x) == v then [x] else []);
    } else {
      var front := s[..|s| - 1];
      var last := s[|s| - 1];
      InsertStable(x, front, key, v);
      WithKeyAppend(Insert(x, front, key), [last], key, v);
      assert WithKey([last], key, v) == WithKey([], key, v) + (if key(last) == v then [last] else []);
      assert s == front + [last];
    }
  }

  /** Elements with equal keys keep their relative order. */
  lemma {:induction false} SortByStable<T>(s: seq<T>, key: T -> int, v: int)
    ensures WithKey(SortBy(s, key), key, v) == WithKey(s, key, v)
  {
    if s != [] {
      SortByStable(s[..|s| - 1], key, v);
      InsertStable(s[|s| - 1], SortBy(s[..|s| - 1], key), key, v);
    }
  }

  /** No two elements share a name. */
  predicate DistinctBy<T>(s: seq<T>, name: T -> string) {
    forall i, j :: 0 <= i < j < |s| ==> name(s[i]) != name(s[j])
  }

  function EntryKey(e: Entry): string {
    e.key
  }

  /** Inserting an element with a new name keeps the names distinct. */
  lemma {:induction false} InsertDistinct<T>(x: T, s: seq<T>, key: T -> int, name: T -> string)
    requires DistinctBy(s, name)
    requires forall j :: 0 <= j < |s| ==> name(s[j]) != name(x)
    ensures DistinctBy(Insert(x, s, key), name)
  {
    if !(s == [] || key(s[|s| - 1]) <= key(x)) {
      var front := s[..|s| - 1];
      var last := s[|s| - 1];
      InsertDistinct(x, front, key, name);
      InsertPermutes(x, front, key);
      var r := Insert(x, front, key);
      forall j | 0 <= j < |r|
        ensures name(r[j]) != name(last)
      {
        assert r[j] in multiset(front) + multiset{x};
        if r[j] != x {
          var p :| 0 <= p < |front| && front[p] == r[j];
          assert s[p] == r[j];
        }
      }
    }
  }

  /** Sorting elements with distinct names keeps them distinct. */
  lemma {:induction false} SortByDistinct<T>(s: seq<T>, key: T -> int, name: T -> string)
    requires DistinctBy(s, name)
    ensures DistinctBy(SortBy(s, key), name)
  {
    if s != [] {
      var front := s[..|s| - 1];
      var last := s[|s| - 1];
      SortByDistinct(front, key, name);
      SortByPermutes(front, key);
      var r := SortBy(front, key);
      forall j | 0 <= j < |r|
        ensures name(r[j]) != name(last)
      {
        assert r[j] in multiset(front);
        var p :| 0 <= p < |front| && front[p] == r[j];
        assert s[p] == r[j];
      }
      InsertDistinct(last, r, key, name);
    }
  }

  /** `slice(0, n)` */
  function Take<T>(s: seq<T>, n: nat): (r: seq<T>)
    ensures |r| == if |s| < n then |s| else n
    ensures r == s[..|r|]
  {
    if |s| <= n then s else s[..n]
  }
}
