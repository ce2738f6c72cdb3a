/**
 * The item lists the networks are drawn from (vis.js DataSets), as values.
 *
 * The DataSet library is not part of this model. Its assumed contract:
 * items are kept in insertion order and identified by their `id`; adding a
 * list whose ids clash with stored ids or with each other fails and adds
 * nothing; removing a list removes the stored items with those ids and
 * ignores ids that are not stored.
 */
module VisData {
  import opened JsValues

  function IdOf(item: Fields): Value {
    Get(item, "id")
  }

  function Ids(items: seq<Fields>): (r: seq<Value>)
    ensures |r| == |items|
    ensures forall i | 0 <= i < |items| :: r[i] == IdOf(items[i])
  {
    seq(|items|, i requires 0 <= i < |items| => IdOf(items[i]))
  }

  predicate UniqueIds(items: seq<Fields>) {
    forall i, j | 0 <= i < j < |items| :: IdOf(items[i]) != IdOf(items[j])
  }

  /** The items whose id is not among `ids`, in their order. */
  function Without(items: seq<Fields>, ids: seq<Value>): (r: seq<Fields>)
    ensures |r| <= |items|
  {
    if items == [] then []
    else
      var rest := Without(items[1..], ids);
      if IdOf(items[0]) in ids then rest else [items[0]] + rest
  }

  /** `Without` keeps exactly the items whose id is not listed. */
  lemma {:induction false} WithoutMembers(items: seq<Fields>, ids: seq<Value>)
    ensures forall x :: x in Without(items, ids) <==> x in items && IdOf(x) !in ids
  {
    if items != [] {
      WithoutMembers(items[1..], ids);
      assert forall x :: x in items <==> x == items[0] || x in items[1..];
    }
  }

  /** `Without` keeps the relative order: it distributes over concatenation. */
  lemma {:induction false} WithoutAppend(a: seq<Fields>, b: seq<Fields>, ids: seq<Value>)
    ensures Without(a + b, ids) == Without(a, ids) + Without(b, ids)
  {
    if a != [] {
      assert (a + b)[1..] == a[1..] + b;
      WithoutAppend(a[1..], b, ids);
    } else {
      assert a + b == b;
    }
  }

  /** Nothing is dropped when no item's id is listed. */
  lemma {:induction false} WithoutNoneListed(items: seq<Fields>, ids: seq<Value>)
    requires forall x | x in items :: IdOf(x) !in ids
    ensures Without(items, ids) == items
  {
    if items != [] {
      WithoutNoneListed(items[1..], ids);
    }
  }

  /** Everything is dropped when every item's id is listed. */
  lemma {:induction false} WithoutAllListed(items: seq<Fields>, ids: seq<Value>)
    requires forall x | x in items :: IdOf(x) in ids
    ensures Without(items, ids) == []
  {
    if items != [] {
      WithoutAllListed(items[1..], ids);
    }
  }

  /** Dropping items keeps ids unique. */
  lemma {:induction false} WithoutUnique(items: seq<Fields>, ids: seq<Value>)
    ensures UniqueIds(items) ==> UniqueIds(Without(items, ids))
  {
    if items != [] && UniqueIds(items) {
      WithoutUnique(items[1..], ids);
      WithoutMembers(items[1..], ids);
      var rest := Without(items[1..], ids);
      assert forall x | x in rest :: x in items[1..];
      forall x | x in rest ensures IdOf(x) != IdOf(items[0]) {
        var k :| 0 <= k < |items[1..]| && items[1..][k] == x;
        assert items[k + 1] == x;
      }
    }
  }

  /** `dataSet.add(list)`: `None` is the error raised on an id clash. */
  function AddAll(items: seq<Fields>, list: seq<Fields>): (r: Option<seq<Fields>>)
    ensures r.Some? <==> UniqueIds(items + list)
    ensures r.Some? ==> r.value == items + list
  {
    if UniqueIds(items + list) then Some(items + list) else None
  }

  /** `dataSet.remove(list)`: drops the stored items with the listed ids. */
  function RemoveAll(items: seq<Fields>, list: seq<Fields>): (r: seq<Fields>)
    ensures |r| <= |items|
  {
    Without(items, Ids(list))
  }

  /** Removing keeps exactly the stored items whose id is not in the list,
    * and keeps ids unique. */
  lemma RemoveAllMembers(items: seq<Fields>, list: seq<Fields>)
    ensures forall x :: x in RemoveAll(items, list) <==> x in items && IdOf(x) !in Ids(list)
    ensures UniqueIds(items) ==> UniqueIds(RemoveAll(items, list))
  {
    WithoutMembers(items, Ids(list));
    WithoutUnique(items, Ids(list));
  }
}
