/**
 * The grouping `reduce` of the console summary: the first element with a new key creates the
 * key's record, and every element with that key is then added to it. The object's entries come
 * back in the order in which their keys were first inserted.
 */
module Grouping {
  import opened Aggregate

  /** The record of one key: the elements with that key, in order. */
  datatype Group<T> = Group(key: string, items: seq<T>)

  /** The position of the group for `key`, or `|gs|`. */
  function GroupIndex<T>(gs: seq<Group<T>>, key: string): (i: nat)
    ensures i <= |gs|
    ensures i < |gs| ==> gs[i].key == key
    ensures forall j :: 0 <= j < i ==> gs[j].key != key
  {
    if gs == [] then 0 else if gs[0].key == key then 0 else 1 + GroupIndex(gs[1..], key)
  }

  /** Adds `x` to the group of `key`, creating the group after the others when it is new. */
  function AddToGroup<T>(gs: seq<Group<T>>, key: string, x: T): seq<Group<T>> {
    var i := GroupIndex(gs, key);
    if i < |gs| then gs[i := Group(key, gs[i].items + [x])] else gs + [Group(key, [x])]
  }

  /** The groups a `reduce` over `xs` builds, keyed by `keyOf`. */
  function GroupBy<T>(xs: seq<T>, keyOf: T -> string): seq<Group<T>> {
    if xs == [] then [] else AddToGroup(GroupBy(xs[..|xs| - 1], keyOf), keyOf(xs[|xs| - 1]), xs[|xs| - 1])
  }

  /** The elements of `xs` whose key is `key`, in order. */
  function Having<T>(xs: seq<T>, keyOf: T -> string, key: string): seq<T> {
    if xs == [] then [] else Having(xs[..|xs| - 1], keyOf, key) + (if keyOf(xs[|xs| - 1]) == key then [xs[|xs| - 1]] else [])
  }

  /** The keys of the elements, in order. */
  function KeysOf<T>(xs: seq<T>, keyOf: T -> string): (r: seq<string>)
    ensures |r| == |xs| && forall i :: 0 <= i < |xs| ==> r[i] == keyOf(xs[i])
  {
    if xs == [] then [] else KeysOf(xs[..|xs| - 1], keyOf) + [keyOf(xs[|xs| - 1])]
  }

  predicate DistinctGroups<T>(gs: seq<Group<T>>) {
    forall i, j :: 0 <= i < j < |gs| ==> gs[i].key != gs[j].key
  }

  // ---------------------------------------------------------------------------------------
  // The accumulation

  /** The entries of an object whose keys were inserted in the order `order`, with values `acc`. */
  function GroupsOf<T>(order: seq<string>, acc: map<string, seq<T>>): (gs: seq<Group<T>>)
    requires forall k :: k in order ==> k in acc
    ensures |gs| == |order|
    ensures forall j :: 0 <= j < |order| ==> gs[j] == Group(order[j], acc[order[j]])
  {
    if order == [] then [] else GroupsOf(order[..|order| - 1], acc) + [Group(order[|order| - 1], acc[order[|order| - 1]])]
  }

  /**
   * The `reduce` with an object accumulator: a key seen for the first time gets a new record,
   * which every element with that key then joins.
   */
  method GroupByKey<T>(xs: seq<T>, keyOf: T -> string) returns (groups: seq<Group<T>>)
    ensures groups == GroupBy(xs, keyOf)
  {
    var order: seq<string> := [];
    var acc: map<string, seq<T>> := map[];
    var i := 0;
    while i < |xs|
      invariant 0 <= i <= |xs|
      invariant forall k :: k in order ==> k in acc
      invariant forall k :: k in acc ==> k in order
      invariant GroupsOf(order, acc) == GroupBy(xs[..i], keyOf)
    {
      var x := xs[i];
      var key := keyOf(x);
      GroupByStep(xs, keyOf, i);
      GroupByDistinct(xs[..i], keyOf);
      if key !in acc {
        AddNew(order, acc, key, x);
        order := order + [key];
        acc := acc[key := []];
      } else {
        AddExisting(order, acc, key, x);
      }
      acc := acc[key := acc[key] + [x]];
      i := i + 1;
    }
    assert xs[..i] == xs;
    groups := GroupEntries(order, acc);
  }

  /** `Object.entries` on an object with key order `order` and records `acc`. */
  method GroupEntries<T>(order: seq<string>, acc: map<string, seq<T>>) returns (groups: seq<Group<T>>)
    requires forall k :: k in order ==> k in acc
    ensures groups == GroupsOf(order, acc)
  {
    groups := [];
    var j := 0;
    while j < |order|
      invariant 0 <= j <= |order|
      invariant groups == GroupsOf(order[..j], acc)
    {
      assert order[..j + 1][..j] == order[..j];
      groups := groups + [Group(order[j], acc[order[j]])];
      j := j + 1;
    }
    assert order[..j] == order;
  }

  lemma GroupByStep<T>(xs: seq<T>, keyOf: T -> string, i: nat)
    requires i < |xs|
    ensures GroupBy(xs[..i + 1], keyOf) == AddToGroup(GroupBy(xs[..i], keyOf), keyOf(xs[i]), xs[i])
  {
    assert xs[..i + 1][..i] == xs[..i];
  }

  /** Joining an existing record agrees with one step on the group list. */
  lemma AddExisting<T>(order: seq<string>, acc: map<string, seq<T>>, key: string, x: T)
    requires forall k :: k in order ==> k in acc
    requires DistinctGroups(GroupsOf(order, acc))
    requires key in order
    ensures GroupsOf(order, acc[key := acc[key] + [x]]) == AddToGroup(GroupsOf(order, acc), key, x)
  {
    var gs := GroupsOf(order, acc);
    var i := GroupIndex(gs, key);
    var p :| 0 <= p < |order| && order[p] == key;
    assert gs[p].key == key;
    assert i == p;
    var u := GroupsOf(order, acc[key := acc[key] + [x]]);
    var b := gs[i := Group(key, gs[i].items + [x])];
    forall j | 0 <= j < |u|
      ensures u[j] == b[j]
    {
      if j != i {
        assert gs[j].key == order[j];
      }
    }
  }

  /** Creating a record and joining it agrees with one step on the group list. */
  lemma AddNew<T>(order: seq<string>, acc: map<string, seq<T>>, key: string, x: T)
    requires forall k :: k in order ==> k in acc
    requires key !in order
    ensures GroupsOf(order + [key], acc[key := []][key := [] + [x]]) == AddToGroup(GroupsOf(order, acc), key, x)
  {
    var gs := GroupsOf(order, acc);
    assert forall j :: 0 <= j < |gs| ==> gs[j].key == order[j];
    var acc2 := acc[key := []][key := [] + [x]];
    var u := GroupsOf(order + [key], acc2);
    var b := gs + [Group(key, [x])];
    forall j | 0 <= j < |u|
      ensures u[j] == b[j]
    {
      if j < |gs| {
        assert (order + [key])[j] == order[j] != key;
      } else {
        assert acc2[key] == [x];
      }
    }
  }

  // ---------------------------------------------------------------------------------------
  // Properties of the groups

  lemma {:induction false} GroupByDistinct<T>(xs: seq<T>, keyOf: T -> string)
    ensures DistinctGroups(GroupBy(xs, keyOf))
  {
    if xs != [] {
      GroupByDistinct(xs[..|xs| - 1], keyOf);
    }
  }

  /** Group lists whose keys agree on a prefix find a key of that prefix at the same place. */
  lemma GroupIndexSameKeys<T>(gs: seq<Group<T>>, b: seq<Group<T>>, key: string)
    requires |gs| <= |b|
    requires forall j :: 0 <= j < |gs| ==> b[j].key == gs[j].key
    ensures GroupIndex(gs, key) < |gs| ==> GroupIndex(b, key) == GroupIndex(gs, key)
    ensures GroupIndex(gs, key) == |gs| ==> GroupIndex(b, key) >= |gs|
  {
  }

  /** A key has a group exactly when some element has it, and the group holds exactly the elements with that key, in order. */
  lemma {:induction false} GroupByItems<T>(xs: seq<T>, keyOf: T -> string, key: string)
    ensures GroupIndex(GroupBy(xs, keyOf), key) < |GroupBy(xs, keyOf)| <==> Having(xs, keyOf, key) != []
    ensures GroupIndex(GroupBy(xs, keyOf), key) < |GroupBy(xs, keyOf)| ==>
      GroupBy(xs, keyOf)[GroupIndex(GroupBy(xs, keyOf), key)].items == Having(xs, keyOf, key)
  {
    if xs != [] {
      var front := xs[..|xs| - 1];
      var last := xs[|xs| - 1];
      GroupByItems(front, keyOf, key);
      var gs := GroupBy(front, keyOf);
      var b := GroupBy(xs, keyOf);
      assert b == AddToGroup(gs, keyOf(last), last);
      assert Having(xs, keyOf, key) == Having(front, keyOf, key) + (if keyOf(last) == key then [last] else []);
      assert forall j :: 0 <= j < |gs| ==> b[j].key == gs[j].key;
      GroupIndexSameKeys(gs, b, key);
      var i := GroupIndex(gs, keyOf(last));
      if keyOf(last) == key {
        if i < |gs| {
          assert b[i] == Group(key, gs[i].items + [last]);
        } else {
          assert b[|gs|] == Group(key, [last]);
        }
      } else if i < |gs| {
        assert GroupIndex(b, key) != i;
      } else {
        assert b[|gs|].key != key;
      }
    }
  }

  /** Each group holds exactly the elements with its key, and at least one. */
  lemma GroupContents<T>(xs: seq<T>, keyOf: T -> string, i: nat)
    requires i < |GroupBy(xs, keyOf)|
    ensures GroupBy(xs, keyOf)[i].items == Having(xs, keyOf, GroupBy(xs, keyOf)[i].key) != []
  {
    var gs := GroupBy(xs, keyOf);
    GroupByDistinct(xs, keyOf);
    GroupByItems(xs, keyOf, gs[i].key);
    assert GroupIndex(gs, gs[i].key) == i;
  }

  /** The elements with a key are those whose key it is. */
  lemma {:induction false} HavingMembers<T>(xs: seq<T>, keyOf: T -> string, key: string)
    ensures forall x :: x in Having(xs, keyOf, key) ==> x in xs && keyOf(x) == key
    ensures Having(xs, keyOf, key) != [] <==> key in KeysOf(xs, keyOf)
  {
    if xs != [] {
      var front := xs[..|xs| - 1];
      HavingMembers(front, keyOf, key);
      assert xs == front + [xs[|xs| - 1]];
      assert KeysOf(xs, keyOf) == KeysOf(front, keyOf) + [keyOf(xs[|xs| - 1])];
    }
  }

  /** Groups come in the order in which their keys first occur. */
  lemma {:induction false} GroupOrderPair<T>(xs: seq<T>, keyOf: T -> string, i: nat, j: nat)
    requires i < j < |GroupBy(xs, keyOf)|
    ensures FirstIndex(KeysOf(xs, keyOf), GroupBy(xs, keyOf)[i].key) < FirstIndex(KeysOf(xs, keyOf), GroupBy(xs, keyOf)[j].key)
  {
    var front := xs[..|xs| - 1];
    var last := xs[|xs| - 1];
    var keys := KeysOf(xs, keyOf);
    var fk := KeysOf(front, keyOf);
    assert keys == fk + [keyOf(last)];
    var gs := GroupBy(front, keyOf);
    var b := GroupBy(xs, keyOf);
    assert forall n :: 0 <= n < |gs| ==> b[n].key == gs[n].key;
    GroupContents(front, keyOf, i);
    HavingMembers(front, keyOf, gs[i].key);
    FirstIndexPrefix(fk, keyOf(last), gs[i].key);
    if j < |gs| {
      GroupOrderPair(front, keyOf, i, j);
      GroupContents(front, keyOf, j);
      HavingMembers(front, keyOf, gs[j].key);
      FirstIndexPrefix(fk, keyOf(last), gs[j].key);
    } else {
      GroupByItems(front, keyOf, keyOf(last));
      HavingMembers(front, keyOf, keyOf(last));
      FirstIndexPrefix(fk, keyOf(last), keyOf(last));
    }
  }

  lemma GroupOrder<T>(xs: seq<T>, keyOf: T -> string)
    ensures forall i, j :: 0 <= i < j < |GroupBy(xs, keyOf)| ==>
      FirstIndex(KeysOf(xs, keyOf), GroupBy(xs, keyOf)[i].key) < FirstIndex(KeysOf(xs, keyOf), GroupBy(xs, keyOf)[j].key)
  {
    forall i, j | 0 <= i < j < |GroupBy(xs, keyOf)|
      ensures FirstIndex(KeysOf(xs, keyOf), GroupBy(xs, keyOf)[i].key) < FirstIndex(KeysOf(xs, keyOf), GroupBy(xs, keyOf)[j].key)
    {
      GroupOrderPair(xs, keyOf, i, j);
    }
  }

  /** The number of elements in all the groups. */
  function TotalItems<T>(gs: seq<Group<T>>): nat {
    if gs == [] then 0 else TotalItems(gs[..|gs| - 1]) + |gs[|gs| - 1].items|
  }

  lemma {:induction false} TotalItemsUpdate<T>(gs: seq<Group<T>>, i: nat, g: Group<T>)
    requires i < |gs|
    ensures TotalItems(gs[i := g]) == TotalItems(gs) - |gs[i].items| + |g.items|
    decreases |gs|
  {
    if i < |gs| - 1 {
      assert gs[i := g][..|gs| - 1] == gs[..|gs| - 1][i := g];
      TotalItemsUpdate(gs[..|gs| - 1], i, g);
    } else {
      assert gs[i := g][..|gs| - 1] == gs[..|gs| - 1];
    }
  }

  /** Every element lands in exactly one group: the group sizes add up to the number of elements. */
  lemma {:induction false} GroupBySizes<T>(xs: seq<T>, keyOf: T -> string)
    ensures TotalItems(GroupBy(xs, keyOf)) == |xs|
  {
    if xs != [] {
      var front := xs[..|xs| - 1];
      var last := xs[|xs| - 1];
      GroupBySizes(front, keyOf);
      var gs := GroupBy(front, keyOf);
      var i := GroupIndex(gs, keyOf(last));
      if i < |gs| {
        TotalItemsUpdate(gs, i, Group(keyOf(last), gs[i].items + [last]));
      } else {
        assert (gs + [Group(keyOf(last), [last])])[..|gs|] == gs;
      }
    }
  }
}
